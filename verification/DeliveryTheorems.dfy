/** The promises of the reading side, for every run from a fresh handle. */
module DeliveryTheorems {
  import opened Bytes
  import opened FrameLog
  import opened Pacing
  import opened Delivery
  import opened DeliveryProofs

  // ---------------------------------------------------------------------------------
  // Gap accounting
  // ---------------------------------------------------------------------------------

  /** The deliveries without the synthesized ones. */
  function Real(out: seq<Delivered>): (r: seq<Delivered>)
    ensures forall k | 0 <= k < |r| :: r[k].taken.source.Captured?
  {
    if out == [] then []
    else Real(out[..|out| - 1]) + if out[|out| - 1].taken.source.Captured? then [out[|out| - 1]] else []
  }

  /** The index of the last frame of `frames`, plus one. */
  function After(frames: seq<Delivered>): nat
    requires forall k | 0 <= k < |frames| :: frames[k].taken.source.Captured?
  {
    if frames == [] then 0 else frames[|frames| - 1].taken.source.index + 1
  }

  /** Each frame is a captured one with its exact bytes, in capture order, and the gap
      before it is exactly the drop count it carries. */
  ghost predicate GapsAccounted(frames: seq<Delivered>, log: seq<Frame>) {
    && (forall k | 0 <= k < |frames| ::
          && frames[k].taken.source.Captured?
          && frames[k].taken.source.index < |log|
          && frames[k].taken.frame == log[frames[k].taken.source.index])
    && (forall k | 0 <= k < |frames| ::
          frames[k].taken.source.index ==
          (if k == 0 then 0 else frames[k - 1].taken.source.index + 1) + frames[k].skipped)
  }

  lemma {:induction false} GapsAppend(frames: seq<Delivered>, d: Delivered, log: seq<Frame>)
    requires GapsAccounted(frames, log) && d.taken.source.Captured?
    requires d.taken.source.index == After(frames) + d.skipped < |log|
    requires d.taken.frame == log[d.taken.source.index]
    ensures GapsAccounted(frames + [d], log)
  {
  }

  lemma {:induction false} RealGaps(out: seq<Delivered>, log: seq<Frame>, frameBytes: nat)
    requires AllExact(out, log, frameBytes)
    ensures GapsAccounted(Real(out), log) && After(Real(out)) == NextIndex(out)
  {
    if out != [] {
      var init, d := out[..|out| - 1], out[|out| - 1];
      RealGaps(init, log, frameBytes);
      if d.taken.source.Captured? {
        GapsAppend(Real(init), d, log);
      }
    }
  }

  lemma {:induction false} SilenceIsZeros(out: seq<Delivered>, log: seq<Frame>, frameBytes: nat, k: nat)
    requires AllExact(out, log, frameBytes) && k < |out| && out[k].taken.source.Silent?
    ensures out[k].taken.frame == Zeros(frameBytes) && out[k].skipped == 0
  {
    if k < |out| - 1 {
      SilenceIsZeros(out[..|out| - 1], log, frameBytes, k);
    }
  }

  /** End-to-end gap accounting. Silent frames are zeros and report no drop; the 32-bit
      drop count of every other frame is its exact gap unless the gap itself needs more
      than 32 bits. The overflows of the queue are all accounted for: reported with a
      delivered frame, held by the read in progress, or still to be reported. */
  lemma {:induction false} GapAccounting(s: State, es: seq<Event>)
    requires Initial(s) && Legal(s, es)
    ensures var r := Run(s, es);
            && GapsAccounted(Real(r.out), r.queue.log)
            && (forall k | 0 <= k < |r.out| :: r.out[k].DroppedFrames() == r.out[k].skipped <==> r.out[k].skipped < TWO_32)
            && (forall k | 0 <= k < |r.out| && r.out[k].taken.source.Silent? ::
                  r.out[k].taken.frame == Zeros(s.cfg.frameBytes) && r.out[k].DroppedFrames() == 0)
            && r.overflows == TotalSkipped(r.out) + InHand(r.pc) + r.queue.Dropped()
  {
    InitialInv(s);
    InvRun(s, es);
    var r := Run(s, es);
    RealGaps(r.out, r.queue.log, r.cfg.frameBytes);
    DeliveriesExact(r.out, r.queue.log, r.cfg.frameBytes);
  }

  /** Delivery by delivery. */
  lemma {:induction false} DeliveriesExact(out: seq<Delivered>, log: seq<Frame>, frameBytes: nat)
    requires AllExact(out, log, frameBytes)
    ensures forall k | 0 <= k < |out| :: out[k].DroppedFrames() == out[k].skipped <==> out[k].skipped < TWO_32
    ensures forall k | 0 <= k < |out| && out[k].taken.source.Silent? ::
              out[k].taken.frame == Zeros(frameBytes) && out[k].DroppedFrames() == 0
  {
    forall k | 0 <= k < |out| && out[k].taken.source.Silent?
      ensures out[k].taken.frame == Zeros(frameBytes) && out[k].DroppedFrames() == 0
    {
      SilenceIsZeros(out, log, frameBytes, k);
    }
  }

  // ---------------------------------------------------------------------------------
  // Cadence
  // ---------------------------------------------------------------------------------

  /** The rate is bounded in every window of time. */
  lemma {:induction false} RateBound(s: State, es: seq<Event>, from: int, length: nat)
    requires Initial(s) && Legal(s, es)
    requires s.cfg.fixedRate && s.cfg.period > 0
    ensures |Inside(Beats(Run(s, es).out), from, length)| <= length / s.cfg.period + 2
  {
    InitialInv(s);
    InvRun(s, es);
    WindowBound(Beats(Run(s, es).out), s.cfg.period, from, length);
  }

  /** After every delivered frame the next deadline lies between its stamp and one period
      later, and is never more than a period ahead of the clock. */
  lemma {:induction false} DeadlineNearby(s: State, es: seq<Event>)
    requires Initial(s) && Legal(s, es) && s.cfg.fixedRate
    ensures var r := Run(s, es);
            && (r.pacer.armed ==> r.pacer.deadline <= r.clock + s.cfg.period)
            && (r.out != [] ==>
                  var after := r.out[|r.out| - 1].beat.stamp;
                  after <= r.pacer.deadline <= after + s.cfg.period)
  {
    InitialInv(s);
    InvRun(s, es);
    var r := Run(s, es);
    if r.out != [] {
      var n := |r.out|;
      BeatsAt(r.out, n - 1);
      AdvanceBounds(Pacer(r.out[n - 1].beat.due, true), s.cfg.period, r.out[n - 1].beat.stamp);
    }
  }

  /** Each frame is due a period after the one before, or a period after that one was
      delivered if it was more than a period late. */
  lemma {:induction false} EachDue(s: State, es: seq<Event>, k: nat)
    requires Initial(s) && Legal(s, es) && s.cfg.fixedRate && k + 1 < |Run(s, es).out|
    ensures var before, next := Run(s, es).out[k].beat, Run(s, es).out[k + 1].beat;
            && next.due <= next.stamp
            && next.due == if before.stamp <= before.due + s.cfg.period then before.due + s.cfg.period
                           else before.stamp + s.cfg.period
  {
    InitialInv(s);
    InvRun(s, es);
    var out := Run(s, es).out;
    BeatsAt(out, k);
    BeatsAt(out, k + 1);
    AdvanceBounds(Pacer(out[k].beat.due, true), s.cfg.period, out[k].beat.stamp);
  }

  /** The cadence does not drift unless a frame is fetched more than a period late. */
  lemma {:induction false} CadenceHolds(s: State, es: seq<Event>)
    requires Initial(s) && Legal(s, es) && s.cfg.fixedRate && Run(s, es).out != []
    ensures var r := Run(s, es);
            var n := |r.out|;
            && r.pacer.deadline >= r.out[0].beat.due + n * s.cfg.period
            && (r.pacer.deadline == r.out[0].beat.due + n * s.cfg.period <==>
                forall k | 0 <= k < n :: r.out[k].beat.stamp <= r.out[k].beat.due + s.cfg.period)
  {
    InitialInv(s);
    InvRun(s, es);
    var r := Run(s, es);
    var beats := Beats(r.out);
    NoDrift(beats, s.cfg.period);
    forall k | 0 <= k < |beats|
      ensures beats[k] == r.out[k].beat
    {
      BeatsAt(r.out, k);
    }
    assert Punctual(beats, s.cfg.period) <==>
           forall k | 0 <= k < |beats| :: r.out[k].beat.stamp <= r.out[k].beat.due + s.cfg.period;
  }

  // ---------------------------------------------------------------------------------
  // Waiting
  // ---------------------------------------------------------------------------------

  /** Every call that returned was patient. */
  lemma {:induction false} CallsArePatient(s: State, es: seq<Event>)
    requires Initial(s) && Legal(s, es)
    ensures forall k | 0 <= k < |Run(s, es).ended| :: Patient(Run(s, es).ended[k], s.cfg)
  {
    InitialInv(s);
    InvRun(s, es);
    forall k | 0 <= k < |Run(s, es).ended|
      ensures Patient(Run(s, es).ended[k], s.cfg)
    {
      AllPatientAt(Run(s, es).ended, k, s.cfg);
    }
  }

  /** A fixed-rate call that waits at least a period and a microsecond never comes back
      empty-handed, except the one that armed the pacer. */
  lemma {:induction false} NoSpuriousTimeout(s: State, es: seq<Event>, k: nat)
    requires Initial(s) && Legal(s, es) && s.cfg.fixedRate && k < |Run(s, es).ended|
    requires Run(s, es).ended[k].call.timeout >= s.cfg.period + MICRO
    requires !Run(s, es).ended[k].call.arming
    ensures !Run(s, es).ended[k].outcome.TimedOut?
  {
    CallsArePatient(s, es);
  }

  /** Runs can be put together from the front. */
  lemma {:induction false} RunCons(s: State, e: Event, es: seq<Event>)
    requires s.queue.Valid() && Enabled(s, e)
    requires Step(s, e).queue.Valid() && Legal(Step(s, e), es)
    ensures Legal(s, [e] + es) && Run(s, [e] + es) == Run(Step(s, e), es)
  {
    assert ([e] + es)[1..] == es;
  }

  lemma {:induction false} RunConcat(s: State, a: seq<Event>, b: seq<Event>)
    requires s.queue.Valid() && Legal(s, a) && Legal(Run(s, a), b)
    ensures Legal(s, a + b) && Run(s, a + b) == Run(Run(s, a), b)
    decreases |a|
  {
    if a == [] {
      assert a + b == b;
    } else {
      StepKeepsQueueValid(s, a[0]);
      RunConcat(Step(s, a[0]), a[1..], b);
      RunCons(s, a[0], a[1..] + b);
      assert [a[0]] + (a[1..] + b) == a + b;
    }
  }

  // ---------------------------------------------------------------------------------
  // Flags
  // ---------------------------------------------------------------------------------

  /** Silence, underrun and a synthesized frame coincide, and a discontinuity is exactly
      an announcement or a gap. */
  lemma {:induction false} FlagsSound(s: State, es: seq<Event>)
    requires Initial(s) && Legal(s, es)
    ensures forall k | 0 <= k < |Run(s, es).out| ::
              var d := Run(s, es).out[k];
              FlagsExact(d.flags, d.taken.source, d.skipped, s.cfg.fixedRate || d.info)
  {
    InitialInv(s);
    InvRun(s, es);
    var out := Run(s, es).out;
    forall k | 0 <= k < |out|
      ensures DeliveredFlags(out[k], s.cfg.fixedRate)
    {
      AllFlagsAt(out, k, s.cfg.fixedRate);
    }
  }

  /** A fixed-rate read hands over the oldest frame queued if there is one, silence if the
      queue is empty and open, and is refused if it is empty and closed. One without fixed
      rate tries again where the other would synthesize. */
  lemma {:induction false} PopDecides(s: State)
    requires s.queue.Valid() && s.pc.Popping?
    ensures var r, queued := PopStep(s), s.queue.Contents();
            && (queued != [] ==>
                  && r.pc.InFlight() && r.queue.Contents() == queued[1..]
                  && r.pc.taken == Taken(queued[0], Captured(|s.queue.log| - |queued|)))
            && (queued == [] ==> r.queue == s.queue)
            && (queued == [] && s.queue.closed ==>
                  r.pc.Idle? && r.ended == s.ended + [Ended(s.pc.call, Outcome.Refused, s.clock)])
            && (queued == [] && !s.queue.closed ==>
                  if s.cfg.fixedRate then r.pc == Exchanging(s.pc.call, Taken(Zeros(s.cfg.frameBytes), Silent))
                  else r.pc == Retrying(s.pc.call))
            && (!r.pc.Idle? ==> r.ended == s.ended) && r.out == s.out
  {
    PopEffect(s.queue);
  }

  predicate NoneAnnounces(out: seq<Delivered>) {
    out == [] || (NoneAnnounces(out[..|out| - 1]) && Reinit !in out[|out| - 1].flags)
  }

  lemma {:induction false} NoneAnnouncesAppend(out: seq<Delivered>, d: Delivered)
    requires NoneAnnounces(out) && Reinit !in d.flags
    ensures NoneAnnounces(out + [d])
  {
    assert (out + [d])[..|out|] == out;
  }

  lemma {:induction false} NoneAnnouncesAt(out: seq<Delivered>, k: nat)
    requires NoneAnnounces(out) && k < |out|
    ensures Reinit !in out[k].flags
  {
    if k < |out| - 1 {
      NoneAnnouncesAt(out[..|out| - 1], k);
    }
  }

  ghost predicate Quiet(s: State) {
    && s.pending == {}
    && (s.pc.Stamping? ==> Reinit !in s.pc.flags)
    && NoneAnnounces(s.out)
  }

  lemma {:induction false} QuietStep(s: State, e: Event)
    requires s.queue.Valid() && Enabled(s, e) && Quiet(s) && !e.Raise?
    ensures Quiet(Step(s, e))
  {
    var s' := Step(s, e);
    if (e.Exchange? || e.Stamp?) && s'.pc.Idle? {
      NoneAnnouncesAppend(s.out, s'.out[|s.out|]);
    } else {
      assert s'.out == s.out;
    }
  }

  lemma {:induction false} QuietRun(s: State, es: seq<Event>)
    requires s.queue.Valid() && Legal(s, es) && Quiet(s) && Raise !in es
    ensures Quiet(Run(s, es))
    decreases |es|
  {
    if es != [] {
      StepKeepsQueueValid(s, es[0]);
      QuietStep(s, es[0]);
      assert forall e | e in es[1..] :: e in es;
      QuietRun(Step(s, es[0]), es[1..]);
    }
  }

  lemma {:induction false} NothingSkipped(out: seq<Delivered>)
    requires TotalSkipped(out) == 0
    ensures forall k | 0 <= k < |out| :: out[k].skipped == 0
  {
    if out != [] {
      NothingSkipped(out[..|out| - 1]);
    }
  }

  /** A run in which nothing was announced and the queue never overflowed shows no
      discontinuity. */
  lemma {:induction false} HealthyRun(s: State, es: seq<Event>)
    requires Initial(s) && Legal(s, es) && Raise !in es
    requires Run(s, es).overflows == 0
    ensures forall k | 0 <= k < |Run(s, es).out| :: Discontinuity !in Run(s, es).out[k].flags
  {
    InitialInv(s);
    InvRun(s, es);
    QuietRun(s, es);
    var out := Run(s, es).out;
    NothingSkipped(out);
    forall k | 0 <= k < |out|
      ensures Discontinuity !in out[k].flags
    {
      AllFlagsAt(out, k, s.cfg.fixedRate);
      NoneAnnouncesAt(out, k);
    }
  }

  // ---------------------------------------------------------------------------------
  // Close
  // ---------------------------------------------------------------------------------

  /** What the frames handed over were. */
  function Takens(out: seq<Delivered>): (r: seq<Taken>)
    ensures |r| == |out|
  {
    if out == [] then [] else Takens(out[..|out| - 1]) + [out[|out| - 1].taken]
  }

  lemma {:induction false} TakensAppend(out: seq<Delivered>, d: Delivered)
    ensures Takens(out + [d]) == Takens(out) + [d.taken]
  {
    assert (out + [d])[..|out|] == out;
  }

  /** The frames of the queue, each with its index. */
  function Queued(q: Queue<Frame>): (r: seq<Taken>)
    requires q.Valid()
    ensures |r| == |q.Contents()|
    ensures forall j | 0 <= j < |r| :: r[j] == Taken(q.Contents()[j], Captured(q.First() + j))
  {
    seq(|q.Contents()|, j requires 0 <= j < |q.Contents()| => Taken(q.Contents()[j], Captured(q.First() + j)))
  }

  function Holding(pc: Pc): seq<Taken> {
    if pc.InFlight() then [pc.taken] else []
  }

  /** What a closed queue still owes its reader: the frame in the hands of a read in
      progress, if any, and then the frames queued. */
  function Owed(s: State): seq<Taken>
    requires s.queue.Valid()
  {
    Holding(s.pc) + Queued(s.queue)
  }

  /** Delivered and owed together stay what they were. */
  ghost predicate Drains(s: State, r: State)
    requires s.queue.Valid() && r.queue.Valid()
  {
    && r.queue.closed && r.queue.log == s.queue.log
    && s.out <= r.out
    && Takens(r.out) + Owed(r) == Takens(s.out) + Owed(s)
  }

  /** Taking the head moves it from the queue into the reader's hands. */
  lemma {:induction false} QueuedPop(q: Queue<Frame>)
    requires q.Valid() && q.PopResult().Got?
    ensures Queued(q) == [Taken(q.PopResult().frame, Captured(q.PopResult().index))] + Queued(q.Pop())
  {
    assert q.Pop().Contents() == q.Contents()[1..];
  }

  lemma {:induction false} DrainsPop(s: State)
    requires s.queue.Valid() && s.queue.closed && s.pc.Popping?
    ensures Drains(s, PopStep(s))
  {
    var r := PopStep(s);
    assert r.out == s.out && Holding(s.pc) == [];
    if s.queue.PopResult().Got? {
      QueuedPop(s.queue);
      assert r.queue == s.queue.Pop();
      assert Owed(r) == Queued(s.queue);
    } else {
      DropsOnlyWhenFull(s.queue);
      assert r.queue == s.queue && Holding(r.pc) == [];
    }
    assert Owed(s) == Queued(s.queue) == Owed(r);
  }

  /** What is handed over moves from one side to the other. */
  lemma {:induction false} HandOn(done: seq<Taken>, x: Taken, rest: seq<Taken>)
    ensures (done + [x]) + ([] + rest) == done + ([x] + rest)
  {
  }

  /** Handing over the frame in hand. */
  lemma {:induction false} DrainsHandOver(s: State, r: State, d: Delivered)
    requires s.queue.Valid() && s.queue.closed && s.pc.InFlight()
    requires r.queue == s.queue && r.pc.Idle? && r.out == s.out + [d] && d.taken == s.pc.taken
    ensures Drains(s, r)
  {
    TakensAppend(s.out, d);
    HandOn(Takens(s.out), d.taken, Queued(s.queue));
  }

  lemma {:induction false} DrainsReturn(s: State, e: Event)
    requires s.queue.Valid() && s.queue.closed && Enabled(s, e) && (e.Exchange? || e.Stamp?)
    ensures Drains(s, Step(s, e))
  {
    var r := Step(s, e);
    if r.pc.Idle? {
      DrainsHandOver(s, r, r.out[|s.out|]);
    } else {
      assert r.queue == s.queue && r.out == s.out && Holding(r.pc) == Holding(s.pc);
    }
  }

  /** Steps that leave the log, the deliveries and the reader's hands alone. */
  lemma {:induction false} DrainsOther(s: State, r: State)
    requires s.queue.Valid() && s.queue.closed && r.queue == s.queue
    requires r.out == s.out && Holding(r.pc) == Holding(s.pc)
    ensures Drains(s, r)
  {
  }

  lemma {:induction false} DrainsStep(s: State, e: Event)
    requires s.queue.Valid() && s.queue.closed && Enabled(s, e)
    ensures Step(s, e).queue.Valid() && Drains(s, Step(s, e))
  {
    if e.Pop? {
      DrainsPop(s);
    } else if e.Exchange? || e.Stamp? {
      DrainsReturn(s, e);
    } else {
      ClosedStays(s, e);
      DrainsOther(s, Step(s, e));
    }
  }

  lemma {:induction false} ClosedStays(s: State, e: Event)
    requires s.queue.Valid() && s.queue.closed && Enabled(s, e) && !e.Pop? && !e.Exchange? && !e.Stamp?
    ensures var r := Step(s, e); r.queue == s.queue && r.out == s.out && Holding(r.pc) == Holding(s.pc)
  {
  }

  /** Close is final. Once the queue is closed, and whatever is called later, the frames
      handed over from then on are the frame a read in progress already held and the
      frames then queued, in order and once each, up to some point; the rest is still
      owed. So nothing is synthesized that was not already in hand, and nothing new is
      accepted. */
  lemma {:induction false} CloseIsFinal(s: State, es: seq<Event>)
    requires s.queue.Valid() && s.queue.closed && Legal(s, es)
    ensures var r := Run(s, es);
            && r.queue.closed && r.queue.log == s.queue.log
            && s.out <= r.out
            && Takens(r.out) + Owed(r) == Takens(s.out) + Owed(s)
    decreases |es|
  {
    if es != [] {
      DrainsStep(s, es[0]);
      CloseIsFinal(Step(s, es[0]), es[1..]);
    }
  }

  lemma {:induction false} TakensAt(out: seq<Delivered>, k: nat)
    requires k < |out|
    ensures Takens(out)[k] == out[k].taken
  {
    if k < |out| - 1 {
      TakensAt(out[..|out| - 1], k);
    }
  }

  /** Delivery by delivery: what comes after close is what was owed then, and none of it
      is silence unless the read in progress had already decided on it. */
  lemma {:induction false} DeliveredAfterClose(s: State, es: seq<Event>, j: nat)
    requires s.queue.Valid() && s.queue.closed && Legal(s, es)
    requires |s.out| + j < |Run(s, es).out|
    ensures var d := Run(s, es).out[|s.out| + j];
            && j < |Owed(s)| && d.taken == Owed(s)[j]
            && (d.taken.source.Silent? ==> j == 0 && s.pc.InFlight() && d.taken == s.pc.taken)
  {
    CloseIsFinal(s, es);
    var r := Run(s, es);
    var k := |s.out| + j;
    TakensAt(r.out, k);
    assert (Takens(r.out) + Owed(r))[k] == Takens(r.out)[k];
    assert (Takens(s.out) + Owed(s))[k] == Owed(s)[j];
  }
}
