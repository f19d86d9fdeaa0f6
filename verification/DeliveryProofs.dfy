/** What every run of the reading machine keeps, whatever the rest of the program does. */
module DeliveryProofs {
  import opened Bytes
  import opened FrameLog
  import opened Pacing
  import opened Delivery

  // ---------------------------------------------------------------------------------
  // Shape: queue, frame sizes, flags, and which program points belong to which mode
  // ---------------------------------------------------------------------------------

  ghost predicate Shape(s: State) {
    && s.queue.Valid() && s.queue.capacity >= 1
    && (forall i | 0 <= i < |s.queue.log| :: |s.queue.log[i]| == s.cfg.frameBytes)
    && (s.pending == {} || s.pending == ANNOUNCEMENT)
    && (s.pc.Sleeping? || s.pc.Exchanging? || s.pc.Stamping? ==> s.cfg.fixedRate)
    && (s.pc.Retrying? || s.pc.Finishing? || s.pc.Reporting? ==> !s.cfg.fixedRate)
    && (s.pc.Reporting? ==> s.pc.call.info)
  }

  lemma {:induction false} ShapeStep(s: State, e: Event)
    requires Shape(s) && Enabled(s, e)
    ensures Shape(Step(s, e))
    ensures !s.cfg.fixedRate ==> Step(s, e).pacer == s.pacer
    ensures Step(s, e).cfg == s.cfg && s.queue.log <= Step(s, e).queue.log && s.clock <= Step(s, e).clock
  {
  }

  // ---------------------------------------------------------------------------------
  // Gap accounting
  // ---------------------------------------------------------------------------------

  /** One past the index of the last captured frame handed over. */
  function NextIndex(out: seq<Delivered>): nat {
    if out == [] then 0
    else match out[|out| - 1].taken.source
      case Captured(i) => i + 1
      case Silent => NextIndex(out[..|out| - 1])
  }

  function TotalSkipped(out: seq<Delivered>): nat {
    if out == [] then 0 else TotalSkipped(out[..|out| - 1]) + out[|out| - 1].skipped
  }

  /** The frame is what it claims to be, and the drop count is the exact gap before it. */
  predicate Exact(taken: Taken, next: nat, skipped: nat, log: seq<Frame>, frameBytes: nat) {
    match taken.source
    case Captured(i) => i == next + skipped && i < |log| && taken.frame == log[i]
    case Silent => skipped == 0 && taken.frame == Zeros(frameBytes)
  }

  /** Every delivery so far is exact. */
  predicate AllExact(out: seq<Delivered>, log: seq<Frame>, frameBytes: nat) {
    out == [] ||
    var init, d := out[..|out| - 1], out[|out| - 1];
    AllExact(init, log, frameBytes) && Exact(d.taken, NextIndex(init), d.skipped, log, frameBytes)
  }

  lemma {:induction false} AllExactGrows(out: seq<Delivered>, log: seq<Frame>, more: seq<Frame>, frameBytes: nat)
    requires AllExact(out, log, frameBytes) && log <= more
    ensures AllExact(out, more, frameBytes)
  {
    if out != [] {
      AllExactGrows(out[..|out| - 1], log, more, frameBytes);
    }
  }

  lemma {:induction false} AllExactAppend(out: seq<Delivered>, d: Delivered, log: seq<Frame>, frameBytes: nat)
    requires AllExact(out, log, frameBytes) && Exact(d.taken, NextIndex(out), d.skipped, log, frameBytes)
    ensures AllExact(out + [d], log, frameBytes)
    ensures NextIndex(out + [d]) == CursorAfter(out, d.taken.source)
    ensures TotalSkipped(out + [d]) == TotalSkipped(out) + d.skipped
  {
    assert (out + [d])[..|out|] == out;
  }

  function CursorAfter(out: seq<Delivered>, source: Source): nat {
    if source.Captured? then source.index + 1 else NextIndex(out)
  }

  /** The frame in hand is exact, and the cursor is past it. */
  predicate HandExact(out: seq<Delivered>, pc: Pc, queue: Queue<Frame>, frameBytes: nat) {
    if pc.InFlight() then
      && Exact(pc.taken, NextIndex(out), pc.call.discarded, queue.log, frameBytes)
      && queue.cursor == CursorAfter(out, pc.taken.source)
    else
      && queue.cursor == NextIndex(out)
      && (!pc.Idle? ==> pc.call.discarded == 0)
  }

  function InHand(pc: Pc): nat {
    if pc.InFlight() then pc.call.discarded else 0
  }

  ghost predicate GapInv(s: State) {
    && AllExact(s.out, s.queue.log, s.cfg.frameBytes)
    && HandExact(s.out, s.pc, s.queue, s.cfg.frameBytes)
    && s.overflows == TotalSkipped(s.out) + InHand(s.pc) + s.queue.Dropped()
  }

  lemma {:induction false} GapHandOver(s: State, s': State, d: Delivered)
    requires GapInv(s) && s.pc.InFlight()
    requires d.taken == s.pc.taken && d.skipped == s.pc.call.discarded
    requires s'.out == s.out + [d] && s'.queue == s.queue && s'.cfg == s.cfg && s'.pc.Idle?
    requires s'.overflows == s.overflows
    ensures GapInv(s')
  {
    AllExactAppend(s.out, d, s.queue.log, s.cfg.frameBytes);
  }

  lemma {:induction false} GapPush(s: State, frame: Frame)
    requires Shape(s) && GapInv(s)
    ensures GapInv(PushStep(s, frame))
  {
    if !s.queue.closed {
      PushEffect(s.queue, frame);
      AllExactGrows(s.out, s.queue.log, s.queue.log + [frame], s.cfg.frameBytes);
    }
  }

  lemma {:induction false} GapPop(s: State)
    requires Shape(s) && GapInv(s) && s.pc.Popping?
    ensures GapInv(PopStep(s))
  {
    DropsOnlyWhenFull(s.queue);
  }

  /** Steps that move neither frames nor the cursor. */
  lemma {:induction false} GapOther(s: State, s': State)
    requires GapInv(s)
    requires s'.out == s.out && s'.cfg == s.cfg && s'.overflows == s.overflows
    requires s'.queue == s.queue.(closed := s'.queue.closed)
    requires s'.pc.InFlight() == s.pc.InFlight()
    requires s.pc.InFlight() ==> s'.pc.taken == s.pc.taken && s'.pc.call == s.pc.call
    requires !s.pc.InFlight() && !s'.pc.Idle? ==> s'.pc.call.discarded == 0
    ensures GapInv(s')
  {
  }

  /** Looking, waking and giving up move neither frames nor the cursor. */
  lemma {:induction false} GapLook(s: State, e: Event)
    requires GapInv(s) && s.queue.Valid() && Enabled(s, e) && (e.Look? || e.Wake? || e.Recheck?)
    ensures GapInv(Step(s, e))
  {
    GapOther(s, Step(s, e));
  }

  lemma {:induction false} GapReturn(s: State, e: Event)
    requires GapInv(s) && s.queue.Valid() && Enabled(s, e) && (e.Exchange? || e.Stamp?)
    ensures GapInv(Step(s, e))
  {
    var s' := Step(s, e);
    if s'.pc.Idle? {
      GapHandOver(s, s', s'.out[|s.out|]);
    } else {
      GapOther(s, s');
    }
  }

  lemma {:induction false} GapStep(s: State, e: Event)
    requires Shape(s) && GapInv(s) && Enabled(s, e)
    ensures GapInv(Step(s, e))
  {
    match e
    case Push(frame) => GapPush(s, frame);
    case Pop => GapPop(s);
    case Look(_) => GapLook(s, e);
    case Wake(_) => GapLook(s, e);
    case Recheck(_) => GapLook(s, e);
    case Exchange => GapReturn(s, e);
    case Stamp(_) => GapReturn(s, e);
    case _ =>
  }

  // ---------------------------------------------------------------------------------
  // Pacing
  // ---------------------------------------------------------------------------------

  function Beats(out: seq<Delivered>): (beats: seq<Beat>)
    ensures |beats| == |out|
  {
    if out == [] then [] else Beats(out[..|out| - 1]) + [out[|out| - 1].beat]
  }

  lemma {:induction false} BeatsAt(out: seq<Delivered>, k: nat)
    requires k < |out|
    ensures Beats(out)[k] == out[k].beat
  {
    if k < |out| - 1 {
      BeatsAt(out[..|out| - 1], k);
    }
  }

  ghost predicate PaceInv(s: State) {
    s.cfg.fixedRate ==>
      && Paced(Beats(s.out), s.cfg.period)
      && (s.pacer.armed ==> s.pacer.deadline <= s.clock + s.cfg.period)
      && (s.pc.Popping? || s.pc.InFlight() ==> s.pacer.armed && s.pacer.deadline <= s.clock)
      && (s.out != [] ==> s.pacer == Pacer(NextDue(s.out[|s.out| - 1].beat, s.cfg.period), true))
  }

  lemma {:induction false} PacedAppend(beats: seq<Beat>, b: Beat, period: nat)
    requires Paced(beats, period) && b.due <= b.stamp
    requires beats != [] ==> b.due == NextDue(beats[|beats| - 1], period)
    ensures Paced(beats + [b], period)
  {
  }

  lemma {:induction false} PaceHandOver(s: State, t: int)
    requires PaceInv(s) && s.pc.Stamping? && s.cfg.fixedRate && t >= s.clock
    ensures PaceInv(StampStep(s, t))
  {
    var d := StampStep(s, t).out[|s.out|];
    assert (s.out + [d])[..|s.out|] == s.out;
    if s.out != [] {
      BeatsAt(s.out, |s.out| - 1);
    }
    PacedAppend(Beats(s.out), d.beat, s.cfg.period);
    AdvanceBounds(s.pacer, s.cfg.period, t);
  }

  lemma {:induction false} PaceStep(s: State, e: Event)
    requires Shape(s) && PaceInv(s) && Enabled(s, e)
    ensures PaceInv(Step(s, e))
  {
    if s.cfg.fixedRate {
      if e.Stamp? {
        PaceHandOver(s, e.t);
      } else {
        assert Step(s, e).out == s.out;
      }
    }
  }

  // ---------------------------------------------------------------------------------
  // Patience: sleeps and timeouts
  // ---------------------------------------------------------------------------------

  /** A call slept once more than it was woken early at most; one that timed out did so
      no more than a microsecond before its own deadline; and at fixed rate a patient
      call timed out only if it was the one that armed the pacer. */
  predicate Patient(e: Ended, cfg: Config) {
    && e.call.sleeps <= e.call.earlyWakes + 1
    && (e.outcome.TimedOut? ==> e.at + MICRO > e.call.Deadline())
    && (e.outcome.TimedOut? && cfg.fixedRate && !e.call.arming ==> e.call.timeout < cfg.period + MICRO)
  }

  predicate AllPatient(ended: seq<Ended>, cfg: Config) {
    ended == [] || (AllPatient(ended[..|ended| - 1], cfg) && Patient(ended[|ended| - 1], cfg))
  }

  lemma {:induction false} AllPatientAppend(ended: seq<Ended>, e: Ended, cfg: Config)
    requires AllPatient(ended, cfg) && Patient(e, cfg)
    ensures AllPatient(ended + [e], cfg)
  {
    assert (ended + [e])[..|ended|] == ended;
  }

  lemma {:induction false} AllPatientAt(ended: seq<Ended>, k: nat, cfg: Config)
    requires AllPatient(ended, cfg) && k < |ended|
    ensures Patient(ended[k], cfg)
  {
    if k < |ended| - 1 {
      AllPatientAt(ended[..|ended| - 1], k, cfg);
    }
  }

  ghost predicate PatienceInv(s: State) {
    && AllPatient(s.ended, s.cfg)
    && (!s.pc.Idle? ==>
          var call := s.pc.call;
          && call.begun <= s.clock
          && call.sleeps <= call.earlyWakes + 1
          && (!s.cfg.fixedRate ==> call.sleeps == 0)
          && (s.pacer.armed && !call.arming ==> s.pacer.deadline <= call.begun + s.cfg.period)
          && (s.pc.Looking? ==> call.sleeps <= call.earlyWakes || Settled(s.pacer, s.clock, call.Deadline()))
          && (s.pc.Sleeping? ==> Settled(s.pacer, s.pc.until, call.Deadline())))
  }

  lemma {:induction false} PatienceLook(s: State, t: int)
    requires Shape(s) && PaceInv(s) && PatienceInv(s) && Enabled(s, Look(t)) && s.cfg.fixedRate
    ensures PatienceInv(Step(s, Look(t)))
  {
    var call := s.pc.call;
    var pacer := Arm(s.pacer, t, s.cfg.period);
    if Settled(s.pacer, s.clock, call.Deadline()) {
      SettledNeverSleeps(s.pacer, t, call.Deadline());
    }
    match Judge(pacer, t, call.Deadline())
    case Due =>
    case Sleep(us) => SleepSettles(pacer, t, call.Deadline());
    case GiveUp =>
      GiveUpIsLate(pacer, t, call.Deadline());
      AllPatientAppend(s.ended, Step(s, Look(t)).ended[|s.ended|], s.cfg);
  }

  /** A call ends: its record joins the others. */
  lemma {:induction false} PatienceEnd(s: State, e: Event)
    requires Shape(s) && PatienceInv(s) && Enabled(s, e)
    requires e.Pop? || e.Recheck? || e.Exchange? || e.Stamp?
    ensures PatienceInv(Step(s, e))
  {
    var s' := Step(s, e);
    if s'.pc.Idle? {
      AllPatientAppend(s.ended, s'.ended[|s.ended|], s.cfg);
    }
  }

  lemma {:induction false} PatienceStep(s: State, e: Event)
    requires Shape(s) && PaceInv(s) && PatienceInv(s) && Enabled(s, e)
    requires !s.cfg.fixedRate ==> !s.pacer.armed
    ensures PatienceInv(Step(s, e))
  {
    match e
    case Look(t) => if s.cfg.fixedRate { PatienceLook(s, t); }
    case Pop => PatienceEnd(s, e);
    case Recheck(_) => PatienceEnd(s, e);
    case Exchange => PatienceEnd(s, e);
    case Stamp(_) => PatienceEnd(s, e);
    case _ =>
  }

  // ---------------------------------------------------------------------------------
  // Flags
  // ---------------------------------------------------------------------------------

  /** Silence, underrun and a synthesized frame are the same thing; a discontinuity is an
      announcement or a gap. `exchanged` says that the pending flags were taken. */
  predicate FlagsExact(flags: set<Flag>, source: Source, skipped: nat, exchanged: bool) {
    && (Silence in flags <==> source.Silent?)
    && (Underrun in flags <==> source.Silent?)
    && (exchanged ==> (Discontinuity in flags <==> Reinit in flags || skipped > 0))
    && (!exchanged ==> flags == {})
  }

  predicate DeliveredFlags(d: Delivered, fixedRate: bool) {
    FlagsExact(d.flags, d.taken.source, d.skipped, fixedRate || d.info)
  }

  predicate AllFlags(out: seq<Delivered>, fixedRate: bool) {
    out == [] || (AllFlags(out[..|out| - 1], fixedRate) && DeliveredFlags(out[|out| - 1], fixedRate))
  }

  lemma {:induction false} AllFlagsAppend(out: seq<Delivered>, d: Delivered, fixedRate: bool)
    requires AllFlags(out, fixedRate) && DeliveredFlags(d, fixedRate)
    ensures AllFlags(out + [d], fixedRate)
  {
    assert (out + [d])[..|out|] == out;
  }

  lemma {:induction false} AllFlagsAt(out: seq<Delivered>, k: nat, fixedRate: bool)
    requires AllFlags(out, fixedRate) && k < |out|
    ensures DeliveredFlags(out[k], fixedRate)
  {
    if k < |out| - 1 {
      AllFlagsAt(out[..|out| - 1], k, fixedRate);
    }
  }

  ghost predicate FlagInv(s: State) {
    && AllFlags(s.out, s.cfg.fixedRate)
    && (s.pc.Stamping? ==> FlagsExact(s.pc.flags, s.pc.taken.source, s.pc.call.discarded, true))
    && (s.pc.Finishing? || s.pc.Reporting? ==> s.pc.taken.source.Captured?)
  }

  lemma {:induction false} FlagStep(s: State, e: Event)
    requires Shape(s) && FlagInv(s) && Enabled(s, e)
    ensures FlagInv(Step(s, e))
  {
    var s' := Step(s, e);
    if (e.Exchange? || e.Stamp?) && s'.pc.Idle? {
      AllFlagsAppend(s.out, s'.out[|s.out|], s.cfg.fixedRate);
    } else {
      assert s'.out == s.out;
    }
  }

  // ---------------------------------------------------------------------------------
  // All together, over whole runs
  // ---------------------------------------------------------------------------------

  ghost predicate Inv(s: State) {
    && Shape(s) && GapInv(s) && PaceInv(s) && PatienceInv(s) && FlagInv(s)
    && (!s.cfg.fixedRate ==> !s.pacer.armed)
  }

  lemma {:induction false} InitialInv(s: State)
    requires Initial(s)
    ensures Inv(s)
  {
    assert Beats(s.out) == [];
  }

  lemma {:induction false} InvStep(s: State, e: Event)
    requires Inv(s) && Enabled(s, e)
    ensures Inv(Step(s, e))
  {
    ShapeStep(s, e);
    GapStep(s, e);
    PaceStep(s, e);
    PatienceStep(s, e);
    FlagStep(s, e);
  }

  lemma {:induction false} InvRun(s: State, es: seq<Event>)
    requires Inv(s) && Legal(s, es)
    ensures Inv(Run(s, es)) && Run(s, es).cfg == s.cfg
    decreases |es|
  {
    if es != [] {
      ShapeStep(s, es[0]);
      InvStep(s, es[0]);
      InvRun(Step(s, es[0]), es[1..]);
    }
  }
}
