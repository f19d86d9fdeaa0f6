/** A run of the whole program in which one lost stream is announced twice, or not at all. */
module CaptureLimits {
  import opened Options
  import opened FrameLog
  import opened Pacing
  import opened Delivery
  import opened DeliveryLimits
  import opened CaptureSystem
  import opened Targets

  // ---------------------------------------------------------------------------------
  // Pieces of runs
  // ---------------------------------------------------------------------------------

  /** Both sides of the program but for the records of the reader's announcements. */
  ghost predicate SameThread(s: Sys, r: Sys) {
    && r.setup == s.setup && r.loop == s.loop && r.published == s.published
    && r.stopRequested == s.stopRequested && r.stopping == s.stopping && r.running == s.running
    && r.book.incidents == s.book.incidents && r.book.opens == s.book.opens
  }

  /** The reader may run alone. */
  lemma {:induction false} ReaderAlone(s: Sys, es: seq<Event>) returns (ss: seq<SysEvent>)
    requires s.chan.queue.Valid() && Legal(s.chan, es) && ReaderOnly(es)
    ensures LegalSys(s, ss)
    ensures RunSys(s, ss).chan == Run(s.chan, es) && SameThread(s, RunSys(s, ss))
    decreases |es|
  {
    if es == [] {
      ss := [];
    } else {
      assert es[0] in es;
      assert forall e | e in es[1..] :: e in es;
      SysKeepsQueueValid(s, Reader(es[0]));
      var s' := SysStep(s, Reader(es[0]));
      var rest := ReaderAlone(s', es[1..]);
      ss := [Reader(es[0])] + rest;
      assert ss[0] == Reader(es[0]) && ss[1..] == rest;
    }
  }

  /** One more event. */
  lemma {:induction false} Then(s: Sys, es: seq<SysEvent>, e: SysEvent) returns (es': seq<SysEvent>)
    requires s.chan.queue.Valid() && LegalSys(s, es) && Possible(RunSys(s, es), e)
    ensures es' == es + [e] && LegalSys(s, es') && RunSys(s, es') == SysStep(RunSys(s, es), e)
  {
    RunOne(RunSys(s, es), e);
    RunJoin(s, es, [e]);
    es' := es + [e];
  }

  const HERE: Target := Target("sink", "sink.monitor")

  /** From the top of the loop to an open stream. */
  lemma {:induction false} OpensStream(s: Sys) returns (es: seq<SysEvent>)
    requires s.chan.queue.Valid() && s.loop.pc.Top? && s.loop.mic.None? && !s.stopRequested
    ensures LegalSys(s, es)
    ensures var r := RunSys(s, es);
            && r.chan == s.chan && !r.stopRequested
            && r.loop.mic.Some? && r.loop.hadStream
            && r.loop.pc == (if s.loop.hadStream then Raising(Reopened) else Reading)
            && |r.book.opens| == |s.book.opens| + 1
            && r.book.incidents ==
               s.book.incidents + if s.loop.hadStream then [Incident(Reopened, |s.book.opens| + 1)] else []
  {
    es := Then(s, [], Check);
    es := Then(s, es, Resolved(Some(HERE)));
    es := Then(s, es, Opened(true, s.chan.clock));
  }

  /** A read fails and is flagged. */
  lemma {:induction false} StreamFails(s: Sys) returns (es: seq<SysEvent>)
    requires s.chan.queue.Valid() && s.loop.pc.Reading? && s.loop.hadStream && !s.stopRequested
    ensures LegalSys(s, es)
    ensures var r := RunSys(s, es);
            && r.chan == s.chan.(pending := s.chan.pending + ANNOUNCEMENT)
            && r.loop.pc.Backoff? && r.loop.mic.None? && r.loop.hadStream && !r.stopRequested
            && r.book.opens == s.book.opens
            && r.book.incidents == s.book.incidents + [Incident(ReadFailed, |s.book.opens|)]
  {
    es := Then(s, [], Read(None));
    es := Then(s, es, RaiseFlags);
  }

  /** The thread starts, opens a first stream and loses it. */
  lemma {:induction false} FirstStreamFails(s: Sys) returns (es: seq<SysEvent>)
    requires Created(s)
    ensures LegalSys(s, es)
    ensures var r := RunSys(s, es);
            && r.chan == s.chan.(pending := ANNOUNCEMENT)
            && r.loop.pc.Backoff? && r.loop.mic.None? && r.loop.hadStream && !r.stopRequested
            && r.book.incidents == [Incident(ReadFailed, 1)] && |r.book.opens| == 1
  {
    es := Then(s, [], Start(HERE));
    var opening := OpensStream(RunSys(s, es));
    RunJoin(s, es, opening);
    es := es + opening;
    var failing := StreamFails(RunSys(s, es));
    RunJoin(s, es, failing);
    es := es + failing;
  }

  /** The thread, after its pause, opens another stream and flags it. */
  lemma {:induction false} StreamReopens(s: Sys) returns (es: seq<SysEvent>)
    requires s.chan.queue.Valid() && s.loop.pc.Backoff? && s.loop.mic.None? && s.loop.hadStream && !s.stopRequested
    ensures LegalSys(s, es)
    ensures var r := RunSys(s, es);
            && r.chan == s.chan.(pending := s.chan.pending + ANNOUNCEMENT)
            && r.book.incidents == s.book.incidents + [Incident(Reopened, |s.book.opens| + 1)]
  {
    es := Then(s, [], BackoffEnds);
    var opening := OpensStream(RunSys(s, es));
    RunJoin(s, es, opening);
    es := es + opening;
    es := Then(s, es, RaiseFlags);
  }

  // ---------------------------------------------------------------------------------
  // The run
  // ---------------------------------------------------------------------------------

  /** The reader delivers one frame of silence at `t`. */
  lemma {:induction false} SilenceAt(s: Sys, t: int, info: bool) returns (es: seq<SysEvent>)
    requires s.chan.queue.Valid() && s.chan.queue.PopResult().Empty? && s.chan.pc.Idle? && s.chan.cfg.fixedRate
    requires t >= s.chan.clock && s.chan.pacer.armed && s.chan.pacer.deadline <= t
    requires Reinit in s.chan.pending
    ensures LegalSys(s, es)
    ensures var r := RunSys(s, es);
            && SameThread(s, r)
            && r.chan.queue == s.chan.queue && r.chan.pc.Idle? && r.chan.cfg == s.chan.cfg && r.chan.clock == t
            && r.chan.pacer == Advance(s.chan.pacer, s.chan.cfg.period, t)
            && |r.chan.out| == |s.chan.out| + 1 && s.chan.out <= r.chan.out
            && Reinit in r.chan.out[|s.chan.out|].flags && r.chan.out[|s.chan.out|].info == info
  {
    var call := SilentCall(s.chan, t, info);
    es := ReaderAlone(s, call);
  }

  /** The first stream fails, and the reader arms its pacer and delivers a frame of silence
      one period later. */
  lemma {:induction false} FailAndRead(s: Sys, info: bool) returns (es: seq<SysEvent>)
    requires Created(s) && s.chan.cfg.fixedRate && s.chan.cfg.period > 0
    ensures LegalSys(s, es)
    ensures var r := RunSys(s, es);
            && r.loop.pc.Backoff? && r.loop.mic.None? && r.loop.hadStream && !r.stopRequested
            && r.book.incidents == [Incident(ReadFailed, 1)] && |r.book.opens| == 1
            && r.chan.queue == s.chan.queue && r.chan.pc.Idle? && r.chan.cfg == s.chan.cfg
            && r.chan.clock == s.chan.clock + s.chan.cfg.period
            && r.chan.pacer == Pacer(s.chan.clock + 2 * s.chan.cfg.period, true)
            && |r.chan.out| == 1 && Reinit in r.chan.out[0].flags && r.chan.out[0].info == info
  {
    es := FirstStreamFails(s);
    var s1 := RunSys(s, es);
    var arming := ArmingCall(s1.chan, info);
    var part := ReaderAlone(s1, arming);
    RunJoin(s, es, part);
    es := es + part;
    var last := SilenceAt(RunSys(s1, part), s.chan.clock + s.chan.cfg.period, info);
    RunJoin(s, es, last);
    es := es + last;
  }

  /** The stream is reopened, and the reader delivers another frame of silence. */
  lemma {:induction false} ReopenAndRead(s: Sys, t: int, info: bool) returns (es: seq<SysEvent>)
    requires s.loop.pc.Backoff? && s.loop.mic.None? && s.loop.hadStream && !s.stopRequested
    requires s.chan.queue.Valid() && s.chan.queue.PopResult().Empty? && s.chan.pc.Idle? && s.chan.cfg.fixedRate
    requires t >= s.chan.clock && s.chan.pacer.armed && s.chan.pacer.deadline <= t
    ensures LegalSys(s, es)
    ensures var r := RunSys(s, es);
            && r.book.incidents == s.book.incidents + [Incident(Reopened, |s.book.opens| + 1)]
            && |r.chan.out| == |s.chan.out| + 1 && s.chan.out <= r.chan.out
            && Reinit in r.chan.out[|s.chan.out|].flags && r.chan.out[|s.chan.out|].info == info
  {
    es := StreamReopens(s);
    var part := SilenceAt(RunSys(s, es), t, info);
    RunJoin(s, es, part);
    es := es + part;
  }

  /** A created handle with frames of 20 ms. */
  const FRESH: Sys :=
    Sys(Setup(false, 2_000 * MILLI), Loop(Off, None, false, "", 0, 0, 0),
        State(Config(20 * MILLI, 1, true), Fresh(4), {}, Pacer(0, false), 0, Idle, [], [], 0),
        false, false, false, "", BLANK)

  /** One stream is lost and reopened once, and two deliveries say `Reinit`: the reader
      exchanged the flags between the failure and the reopen. With `info` a caller hears
      of the one reopening twice; without, of neither. */
  lemma {:induction false} ReopenReportedTwice(info: bool) returns (es: seq<SysEvent>)
    ensures Created(FRESH) && LegalSys(FRESH, es)
    ensures var r := RunSys(FRESH, es);
            && r.book.incidents == [Incident(ReadFailed, 1), Incident(Reopened, 2)]
            && |r.chan.out| == 2
            && (forall k | 0 <= k < 2 :: Reinit in r.chan.out[k].flags && r.chan.out[k].info == info)
  {
    es := FailAndRead(FRESH, info);
    var rest := ReopenAndRead(RunSys(FRESH, es), 2 * FRESH.chan.cfg.period, info);
    RunJoin(FRESH, es, rest);
    es := es + rest;
  }
}
