/** The capture loop and the reader side by side, as a machine of atomic steps.

    The reading side is the machine of module Delivery. This module adds the capture
    thread, one step per action that another thread can observe, and the control calls
    that start and stop it. What the audio server answers, what the stream delivers and
    what the clock says are free choices carried by the events.

    The `Ledger` only records what happened; no step looks at it.
 */
module CaptureSystem {
  import opened Bytes
  import opened Options
  import opened Delivery
  import opened Targets

  /** A pinned sink is never followed away from. `recheck` is in nanoseconds. */
  datatype Setup = Setup(pinned: bool, recheck: nat)

  /** Why a stream reopen was announced. */
  datatype Cause = ReadFailed | OpenFailed | Reopened

  /** Where the capture thread is. */
  datatype LoopPc =
    | Off
    | Top
    | Resolving
    | Opening(target: Target)
    | Raising(cause: Cause)
    | Backoff
    | Reading
    | Pushing(frame: Frame)
    | Polling
    | Rearming
    | PollResolving
    | Leaving

  /** The capture thread. `mic` is the monitor its open stream records; `lastSample` is
      its latest look at the clock and `lastPoll` the latest one that set `nextCheck`. */
  datatype Loop = Loop(
    pc: LoopPc, mic: Option<string>, hadStream: bool,
    currentMonitor: string, nextCheck: int, lastSample: int, lastPoll: int)

  /** Something the reader has to be told, and how many streams had been opened by then. */
  datatype Incident = Incident(cause: Cause, stream: nat)

  /** An incident that was flagged: its serial number, and how many times the reader had
      exchanged the flags before. */
  datatype Announcement = Announcement(serial: nat, incident: Incident, epoch: nat)

  /** The announcements filed with one delivery. */
  type Note = seq<Announcement>

  /** How a stream ended: a read failed, the default sink moved, or the thread left. */
  datatype Ending = Failed | Moved | Left

  /** Stream n is the n-th one opened: `opens[n - 1]` says whether it was a reopen and
      `ends[n - 1]` how it ended. `origins[i]` is the stream that the i-th accepted frame
      came from. `raised` are all announcements; `causes` are those not yet exchanged,
      `inHand` those taken by the exchange of a read in progress, and `notes[k]` those
      taken by the exchange that made the flags of delivery k. */
  datatype Ledger = Ledger(
    opens: seq<bool>, ends: seq<Ending>, incidents: seq<Incident>, origins: seq<nat>,
    raised: seq<Announcement>, causes: Note, inHand: Note, notes: seq<Note>, exchanges: nat)
  {
    /** Another incident. */
    function Add(cause: Cause): Ledger {
      this.(incidents := incidents + [Incident(cause, |opens|)])
    }
  }

  const BLANK: Ledger := Ledger([], [], [], [], [], [], [], [], 0)

  datatype Sys = Sys(
    setup: Setup, loop: Loop, chan: State,
    stopRequested: bool, stopping: bool, running: bool, published: string,
    book: Ledger)

  datatype SysEvent =
    // the capture thread
    | Check
    | Resolved(result: Option<Target>)
    | Opened(ok: bool, t: int)
    | RaiseFlags
    | BackoffEnds
    | Read(data: Option<Frame>)
    | PushFrame
    | PollClock(t: int)
    | Rearm(t: int)
    | PollResolved(result: Option<Target>)
    | Leave
    // the control calls
    | Start(target: Target)
    | RequestStop
    | CloseQueue
    // the reader
    | Reader(event: Event)

  const NAME_BYTES: nat := 255

  /** `snprintf` into a 256-byte field. */
  function Truncated(name: string): string {
    if |name| <= NAME_BYTES then name else name[..NAME_BYTES]
  }

  /** The name field holds the longest beginning of a name that fits into 255 bytes. */
  lemma {:induction false} TruncatedIsLongest(name: string)
    ensures Truncated(name) <= name && |Truncated(name)| == Min(|name|, 255)
  {
  }

  /** A read may begin at any time: `running` was tested before its first look at the
      clock, and may have been cleared since. */
  predicate Possible(s: Sys, e: SysEvent) {
    match e
    case Check => s.loop.pc.Top?
    case Resolved(_) => s.loop.pc.Resolving?
    case Opened(ok, t) => s.loop.pc.Opening? && t >= s.chan.clock && (ok ==> s.loop.pc.target.monitor != "")
    case RaiseFlags => s.loop.pc.Raising?
    case BackoffEnds => s.loop.pc.Backoff?
    case Read(data) => s.loop.pc.Reading? && (data.Some? ==> |data.value| == s.chan.cfg.frameBytes)
    case PushFrame => s.loop.pc.Pushing? && |s.loop.pc.frame| == s.chan.cfg.frameBytes
    case PollClock(t) => s.loop.pc.Polling? && t >= s.chan.clock
    case Rearm(t) => s.loop.pc.Rearming? && t >= s.chan.clock
    case PollResolved(_) => s.loop.pc.PollResolving?
    case Leave => s.loop.pc.Leaving?
    case Start(_) => !s.running && !s.stopping && s.loop.pc.Off?
    case RequestStop => !s.stopping
    case CloseQueue => s.stopping
    case Reader(event) => event.OfReader() && Enabled(s.chan, event)
  }

  /** Nothing is ruled out: wherever the capture thread is, its next action is possible with
      every answer, a stop can be requested and goes on to close the queue, and the reader
      can take any step of its own. Only a monitor without a name cannot be opened. */
  lemma {:induction false} EveryAnswerPossible(
    s: Sys, answer: Option<Target>, ok: bool, data: Option<Frame>, t: int, event: Event)
    requires t >= s.chan.clock && (data.Some? ==> |data.value| == s.chan.cfg.frameBytes)
    ensures match s.loop.pc
            case Off => !s.running && !s.stopping && answer.Some? ==> Possible(s, Start(answer.value))
            case Top => Possible(s, Check)
            case Resolving => Possible(s, Resolved(answer))
            case Opening(target) => target.monitor != "" || !ok ==> Possible(s, Opened(ok, t))
            case Raising(_) => Possible(s, RaiseFlags)
            case Backoff => Possible(s, BackoffEnds)
            case Reading => Possible(s, Read(data))
            case Pushing(frame) => |frame| == s.chan.cfg.frameBytes ==> Possible(s, PushFrame)
            case Polling => Possible(s, PollClock(t))
            case Rearming => Possible(s, Rearm(t))
            case PollResolving => Possible(s, PollResolved(answer))
            case Leaving => Possible(s, Leave)
    ensures Possible(s, if s.stopping then CloseQueue else RequestStop)
    ensures event.OfReader() && Enabled(s.chan, event) ==> Possible(s, Reader(event))
  {
  }

  /** What a step of the whole program is to the reading side. */
  function ChannelEvent(s: Sys, e: SysEvent): Option<Event>
    requires Possible(s, e)
  {
    match e
    case Opened(ok, t) => if ok then Some(Tick(t)) else None
    case RaiseFlags => Some(Raise)
    case PushFrame => Some(Push(s.loop.pc.frame))
    case PollClock(t) => Some(Tick(t))
    case Rearm(t) => Some(Tick(t))
    case CloseQueue => Some(Close)
    case Reader(event) => Some(event)
    case _ => None
  }

  function ChannelStep(s: Sys, e: SysEvent): State
    requires s.chan.queue.Valid() && Possible(s, e)
  {
    match ChannelEvent(s, e)
    case Some(event) => Delivery.Step(s.chan, event)
    case None => s.chan
  }

  // ---------------------------------------------------------------------------------
  // The capture thread
  // ---------------------------------------------------------------------------------

  /** One action of the capture thread on its own variables. */
  function LoopStep(s: Sys, e: SysEvent): Loop
    requires Possible(s, e)
  {
    var l := s.loop;
    match e
    case Check =>
      l.(pc := if s.stopRequested then Leaving else if l.mic.None? then Resolving else Reading)
    case Resolved(result) =>
      l.(pc := match result case Some(target) => Opening(target) case None => Backoff)
    case Opened(ok, t) =>
      if !ok then l.(pc := Raising(OpenFailed))
      else
        Loop(if l.hadStream then Raising(Reopened) else Reading, Some(l.pc.target.monitor), true,
             l.pc.target.monitor, t + s.setup.recheck, t, t)
    case RaiseFlags => l.(pc := if l.pc.cause.Reopened? then Reading else Backoff)
    case BackoffEnds => l.(pc := if s.stopRequested then Leaving else Top)
    case Read(data) =>
      if data.None? then l.(mic := None, pc := Raising(ReadFailed)) else l.(pc := Pushing(data.value))
    case PushFrame => l.(pc := Polling)
    case PollClock(t) =>
      l.(lastSample := t, pc := if !s.setup.pinned && s.setup.recheck > 0 && t >= l.nextCheck then Rearming else Top)
    case Rearm(t) => l.(nextCheck := t + s.setup.recheck, lastSample := t, lastPoll := t, pc := PollResolving)
    case PollResolved(result) =>
      if SinkMoved(l, result) then l.(mic := None, pc := Top) else l.(pc := Top)
    case Leave => l.(mic := None, pc := Off)
    case Start(_) => l.(mic := None, hadStream := false, pc := Top)
    case _ => l
  }

  /** The default sink is now another one. */
  predicate SinkMoved(l: Loop, result: Option<Target>) {
    result.Some? && result.value.monitor != l.currentMonitor
  }

  // ---------------------------------------------------------------------------------
  // The record
  // ---------------------------------------------------------------------------------

  function BookLoop(s: Sys, e: SysEvent): Ledger
    requires Possible(s, e) && !e.Reader? && s.chan.queue.Valid()
  {
    var b := s.book;
    match e
    case Opened(ok, _) =>
      if !ok then b.Add(OpenFailed)
      else
        var b' := b.(opens := b.opens + [s.loop.hadStream]);
        if s.loop.hadStream then b'.Add(Reopened) else b'
    case RaiseFlags =>
      var a := Announcement(|b.raised|, Incident(s.loop.pc.cause, |b.opens|), b.exchanges);
      b.(raised := b.raised + [a], causes := b.causes + [a])
    case Read(data) => if data.None? then b.(ends := b.ends + [Failed]).Add(ReadFailed) else b
    case PushFrame =>
      if s.chan.queue.closed || s.chan.queue.capacity == 0 then b else b.(origins := b.origins + [|b.opens|])
    case PollResolved(result) => if SinkMoved(s.loop, result) then b.(ends := b.ends + [Moved]) else b
    case Leave => if s.loop.mic.Some? then b.(ends := b.ends + [Left]) else b
    case _ => b
  }

  /** An exchange takes the announcements; a delivery files those its exchange took. */
  function BookReader(s: Sys, e: Event): Ledger
    requires Enabled(s.chan, e)
  {
    var b := s.book;
    match e
    case Exchange =>
      var b' := b.(causes := [], exchanges := b.exchanges + 1);
      if s.chan.pc.Reporting? then b'.(notes := b.notes + [b.causes]) else b'.(inHand := b.causes)
    case Stamp(_) =>
      if s.chan.pc.Stamping? then b.(notes := b.notes + [b.inHand], inHand := [])
      else if s.chan.pc.call.info then b
      else b.(notes := b.notes + [[]])
    case _ => b
  }

  // ---------------------------------------------------------------------------------
  // The whole program
  // ---------------------------------------------------------------------------------

  function PublishedAfter(s: Sys, e: SysEvent): string {
    match e
    case Start(target) => Truncated(target.monitor)
    case Resolved(Some(target)) => Truncated(target.monitor)
    case _ => s.published
  }

  function BookAfter(s: Sys, e: SysEvent): Ledger
    requires s.chan.queue.Valid() && Possible(s, e)
  {
    if e.Reader? then BookReader(s, e.event) else BookLoop(s, e)
  }

  function SysStep(s: Sys, e: SysEvent): Sys
    requires s.chan.queue.Valid() && Possible(s, e)
  {
    Sys(s.setup, LoopStep(s, e), ChannelStep(s, e),
        (if e.RequestStop? then true else if e.Start? then false else s.stopRequested),
        (if e.RequestStop? then true else if e.CloseQueue? then false else s.stopping),
        (if e.Start? then true else if e.Leave? then false else s.running),
        PublishedAfter(s, e),
        BookAfter(s, e))
  }

  lemma {:induction false} SysKeepsQueueValid(s: Sys, e: SysEvent)
    requires s.chan.queue.Valid() && Possible(s, e)
    ensures SysStep(s, e).chan.queue.Valid()
    ensures ChannelEvent(s, e).Some? ==> Enabled(s.chan, ChannelEvent(s, e).value)
  {
    if ChannelEvent(s, e).Some? {
      StepKeepsQueueValid(s.chan, ChannelEvent(s, e).value);
    }
  }

  /** The reader adds nothing to the queue and does not close it. */
  lemma {:induction false} ReaderKeepsLog(s: State, e: Event)
    requires s.queue.Valid() && Enabled(s, e) && e.OfReader()
    ensures Delivery.Step(s, e).queue.log == s.queue.log
    ensures Delivery.Step(s, e).queue.closed == s.queue.closed
    ensures Delivery.Step(s, e).cfg == s.cfg
  {
  }

  predicate LegalSys(s: Sys, es: seq<SysEvent>)
    requires s.chan.queue.Valid()
    decreases |es|
  {
    es == [] ||
    (Possible(s, es[0]) && (SysKeepsQueueValid(s, es[0]); LegalSys(SysStep(s, es[0]), es[1..])))
  }

  function RunSys(s: Sys, es: seq<SysEvent>): (r: Sys)
    requires s.chan.queue.Valid() && LegalSys(s, es)
    ensures r.chan.queue.Valid()
    decreases |es|
  {
    if es == [] then s else (SysKeepsQueueValid(s, es[0]); RunSys(SysStep(s, es[0]), es[1..]))
  }

  /** A run can be cut in two. */
  lemma {:induction false} RunSplit(s: Sys, a: seq<SysEvent>, b: seq<SysEvent>)
    requires s.chan.queue.Valid() && LegalSys(s, a + b)
    ensures LegalSys(s, a) && LegalSys(RunSys(s, a), b)
    ensures RunSys(s, a + b) == RunSys(RunSys(s, a), b)
    decreases |a|
  {
    if a == [] {
      assert a + b == b;
    } else {
      assert (a + b)[0] == a[0] && (a + b)[1..] == a[1..] + b;
      SysKeepsQueueValid(s, a[0]);
      RunSplit(SysStep(s, a[0]), a[1..], b);
    }
  }

  /** And put together. */
  lemma {:induction false} RunJoin(s: Sys, a: seq<SysEvent>, b: seq<SysEvent>)
    requires s.chan.queue.Valid() && LegalSys(s, a) && LegalSys(RunSys(s, a), b)
    ensures LegalSys(s, a + b) && RunSys(s, a + b) == RunSys(RunSys(s, a), b)
    decreases |a|
  {
    if a == [] {
      assert a + b == b;
    } else {
      assert (a + b)[0] == a[0] && (a + b)[1..] == a[1..] + b;
      SysKeepsQueueValid(s, a[0]);
      RunJoin(SysStep(s, a[0]), a[1..], b);
    }
  }

  lemma {:induction false} RunOne(s: Sys, e: SysEvent)
    requires s.chan.queue.Valid() && Possible(s, e)
    ensures LegalSys(s, [e]) && RunSys(s, [e]) == SysStep(s, e)
  {
    SysKeepsQueueValid(s, e);
    assert [e][1..] == [];
  }

  /** A created handle, not yet started. */
  predicate Created(s: Sys) {
    && Initial(s.chan)
    && s.loop.pc.Off? && s.loop.mic.None? && !s.loop.hadStream
    && !s.stopRequested && !s.stopping && !s.running
    && s.book == BLANK
  }
}
