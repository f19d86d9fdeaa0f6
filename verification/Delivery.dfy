/** The reading side of the capture handle as a machine of atomic steps.

    The state is what `read_frame` shares with the rest of the program (the frame queue,
    the pending flags, the clock) together with the reader's own progress. The steps of
    the rest of the program are free: anything may be pushed, flagged or closed between
    any two steps of the reader. The histories `out` and `ended` record every frame
    handed over and every call that returned.
 */
module Delivery {
  import opened Bytes
  import opened FrameLog
  import opened Pacing

  datatype Flag = Discontinuity | Silence | Underrun | Reinit

  /** What a failure or a reopen leaves for the next frame to announce. */
  const ANNOUNCEMENT: set<Flag> := {Reinit, Discontinuity}

  /** `period` is in nanoseconds. */
  datatype Config = Config(period: nat, frameBytes: nat, fixedRate: bool)

  /** One call of `read_frame`. `arming` says that this call armed the pacer; `sleeps`
      and `earlyWakes` count its sleeps and those that ended before their time. */
  datatype Call = Call(
    begun: int, timeout: nat, info: bool, arming: bool, sleeps: nat, earlyWakes: nat, discarded: nat)
  {
    function Deadline(): int {
      begun + timeout
    }
  }

  datatype Source = Silent | Captured(index: nat)

  datatype Taken = Taken(frame: Frame, source: Source)

  /** Where the reader is. `until` is when a sleep, or a wait on the queue, is to end. `Exchanging` and `Stamping` finish a fixed-rate read,
      `Finishing` and `Reporting` one without fixed rate. */
  datatype Pc =
    | Idle
    | Looking(call: Call)
    | Sleeping(call: Call, until: int)
    | Popping(call: Call, until: int)
    | Retrying(call: Call)
    | Exchanging(call: Call, taken: Taken)
    | Stamping(call: Call, taken: Taken, flags: set<Flag>)
    | Finishing(call: Call, taken: Taken)
    | Reporting(call: Call, taken: Taken, stamp: int)
  {
    /** A frame has been taken off the queue, or silence decided on, and not yet returned. */
    predicate InFlight() {
      Exchanging? || Stamping? || Finishing? || Reporting?
    }
  }

  /** A frame handed over. `skipped` is the drop count before the cast to 32 bits. */
  datatype Delivered = Delivered(taken: Taken, beat: Beat, flags: set<Flag>, skipped: nat, info: bool) {
    /** `dropped_frames`, a 32-bit field. */
    function DroppedFrames(): nat {
      skipped % TWO_32
    }
  }

  /** A frame handed over was due at `due`. */
  datatype Outcome = HandedOver(due: int) | TimedOut | Refused

  datatype Ended = Ended(call: Call, outcome: Outcome, at: int)

  /** `overflows` counts the pushes that found the queue full. */
  datatype State = State(
    cfg: Config,
    queue: Queue<Frame>,
    pending: set<Flag>,
    pacer: Pacer,
    clock: int,
    pc: Pc,
    out: seq<Delivered>,
    ended: seq<Ended>,
    overflows: nat)

  datatype Event =
    // the rest of the program
    | Push(frame: Frame)
    | Raise
    | Close
    | Tick(t: int)
    // the reader
    | Enter(t: int, timeout: nat, info: bool)
    | Look(t: int)
    | Wake(t: int)
    | Pop
    | Recheck(t: int)
    | Exchange
    | Stamp(t: int)
  {
    predicate OfReader() {
      !Push? && !Raise? && !Close? && !Tick?
    }
  }

  predicate Enabled(s: State, e: Event) {
    match e
    case Push(frame) => |frame| == s.cfg.frameBytes
    case Raise => true
    case Close => true
    case Tick(t) => t >= s.clock
    case Enter(t, _, _) => s.pc.Idle? && t >= s.clock
    case Look(t) => s.pc.Looking? && t >= s.clock
    case Wake(t) => s.pc.Sleeping? && t >= s.clock
    case Pop => s.pc.Popping?
    case Recheck(t) => s.pc.Retrying? && t >= s.clock
    case Exchange => s.pc.Exchanging? || s.pc.Reporting?
    case Stamp(t) => (s.pc.Stamping? || s.pc.Finishing?) && t >= s.clock
  }

  /** The environment is free and the reader never stuck: any frame of the right size, flag
      and close may come, time may pass, and wherever the reader is, its next action is
      possible whatever the clock says. */
  lemma {:induction false} NothingRuledOut(s: State, frame: Frame, t: int, timeout: nat, info: bool)
    requires t >= s.clock && |frame| == s.cfg.frameBytes
    ensures Enabled(s, Push(frame)) && Enabled(s, Raise) && Enabled(s, Close) && Enabled(s, Tick(t))
    ensures match s.pc
            case Idle => Enabled(s, Enter(t, timeout, info))
            case Looking(_) => Enabled(s, Look(t))
            case Sleeping(_, _) => Enabled(s, Wake(t))
            case Popping(_, _) => Enabled(s, Pop)
            case Retrying(_) => Enabled(s, Recheck(t))
            case Exchanging(_, _) => Enabled(s, Exchange)
            case Stamping(_, _, _) => Enabled(s, Stamp(t))
            case Finishing(_, _) => Enabled(s, Stamp(t))
            case Reporting(_, _, _) => Enabled(s, Exchange)
  {
  }

  // ---------------------------------------------------------------------------------
  // The steps
  // ---------------------------------------------------------------------------------

  function PushStep(s: State, frame: Frame): State
    requires s.queue.Valid()
  {
    s.(queue := s.queue.Push(frame),
       overflows := s.overflows + if !s.queue.closed && s.queue.capacity > 0 && s.queue.Full() then 1 else 0)
  }

  function EndCall(s: State, call: Call, outcome: Outcome, at: int): State {
    s.(pc := Idle, ended := s.ended + [Ended(call, outcome, at)])
  }

  function HandOver(s: State, call: Call, taken: Taken, beat: Beat, flags: set<Flag>): State {
    EndCall(s.(out := s.out + [Delivered(taken, beat, flags, call.discarded, call.info)]),
            call, HandedOver(beat.due), beat.stamp)
  }

  /** Top of the loop: sample the clock, arm the pacer, decide. */
  function LookStep(s: State, t: int): State
    requires s.pc.Looking?
  {
    var call, now := s.pc.call, s.(clock := t);
    if !s.cfg.fixedRate then now.(pc := Popping(call, t + QueueWait(t, call.Deadline()) * MICRO))
    else
      var pacer := Arm(s.pacer, t, s.cfg.period);
      var call' := call.(arming := call.arming || !s.pacer.armed);
      var next := now.(pacer := pacer);
      match Judge(pacer, t, call.Deadline())
      case Due => next.(pc := Popping(call', t))
      case Sleep(us) => next.(pc := Sleeping(call'.(sleeps := call.sleeps + 1), t + us * MICRO))
      case GiveUp => EndCall(next, call', TimedOut, t)
  }

  function WakeStep(s: State, t: int): State
    requires s.pc.Sleeping?
  {
    var call := s.pc.call;
    s.(clock := t,
       pc := Looking(if t < s.pc.until then call.(earlyWakes := call.earlyWakes + 1) else call))
  }

  function PopStep(s: State): State
    requires s.pc.Popping? && s.queue.Valid()
  {
    var call := s.pc.call;
    var popped := s.(queue := s.queue.Pop());
    match s.queue.PopResult()
    case Refused(_) => EndCall(popped, call, Outcome.Refused, s.clock)
    case Got(i, frame, d) =>
      var call' := call.(discarded := call.discarded + d);
      var taken := Taken(frame, Captured(i));
      popped.(pc := if s.cfg.fixedRate then Exchanging(call', taken) else Finishing(call', taken))
    case Empty(d) =>
      var call' := call.(discarded := call.discarded + d);
      popped.(pc := if s.cfg.fixedRate then Exchanging(call', Taken(Zeros(s.cfg.frameBytes), Silent))
                    else Retrying(call'))
  }

  function RecheckStep(s: State, t: int): State
    requires s.pc.Retrying?
  {
    var call, now := s.pc.call, s.(clock := t);
    if t >= call.Deadline() then EndCall(now, call, TimedOut, t) else now.(pc := Looking(call))
  }

  /** The flags of a frame, from what was pending when they were exchanged. */
  function FlagsOf(pending: set<Flag>, discarded: nat, source: Source): set<Flag> {
    pending + (if discarded > 0 then {Discontinuity} else {}) + (if source.Silent? then {Silence, Underrun} else {})
  }

  function ExchangeStep(s: State): State
    requires s.pc.Exchanging? || s.pc.Reporting?
  {
    var call, taken := s.pc.call, s.pc.taken;
    var flags := FlagsOf(s.pending, call.discarded, taken.source);
    var cleared := s.(pending := {});
    if s.pc.Exchanging? then cleared.(pc := Stamping(call, taken, flags))
    else HandOver(cleared, call, taken, Beat(s.pc.stamp, s.pc.stamp), flags)
  }

  /** At fixed rate the frame is stamped last; otherwise before the flags are exchanged,
      and a caller that wants no information leaves the flags pending. */
  function StampStep(s: State, t: int): State
    requires s.pc.Stamping? || s.pc.Finishing?
  {
    var call, taken, now := s.pc.call, s.pc.taken, s.(clock := t);
    if s.pc.Stamping? then
      HandOver(now.(pacer := Advance(s.pacer, s.cfg.period, t)), call, taken, Beat(s.pacer.deadline, t), s.pc.flags)
    else if call.info then now.(pc := Reporting(call, taken, t))
    else HandOver(now, call, taken, Beat(t, t), {})
  }

  function Step(s: State, e: Event): State
    requires s.queue.Valid() && Enabled(s, e)
  {
    match e
    case Push(frame) => PushStep(s, frame)
    case Raise => s.(pending := s.pending + ANNOUNCEMENT)
    case Close => s.(queue := s.queue.Close())
    case Tick(t) => s.(clock := t)
    case Enter(t, timeout, info) => s.(clock := t, pc := Looking(Call(t, timeout, info, false, 0, 0, 0)))
    case Look(t) => LookStep(s, t)
    case Wake(t) => WakeStep(s, t)
    case Pop => PopStep(s)
    case Recheck(t) => RecheckStep(s, t)
    case Exchange => ExchangeStep(s)
    case Stamp(t) => StampStep(s, t)
  }

  lemma {:induction false} StepKeepsQueueValid(s: State, e: Event)
    requires s.queue.Valid() && Enabled(s, e)
    ensures Step(s, e).queue.Valid()
  {
  }

  /** Every event of `es` is possible when its turn comes. */
  predicate Legal(s: State, es: seq<Event>)
    requires s.queue.Valid()
    decreases |es|
  {
    es == [] ||
    (Enabled(s, es[0]) && (StepKeepsQueueValid(s, es[0]); Legal(Step(s, es[0]), es[1..])))
  }

  function Run(s: State, es: seq<Event>): (r: State)
    requires s.queue.Valid() && Legal(s, es)
    ensures r.queue.Valid()
    decreases |es|
  {
    if es == [] then s else (StepKeepsQueueValid(s, es[0]); Run(Step(s, es[0]), es[1..]))
  }

  /** A handle before its first read: an empty queue, nothing pending, the pacer unarmed. */
  predicate Initial(s: State) {
    && s.queue == Fresh(s.queue.capacity) && s.queue.capacity >= 1
    && s.pending == {} && !s.pacer.armed
    && s.pc.Idle? && s.out == [] && s.ended == [] && s.overflows == 0
  }
}
