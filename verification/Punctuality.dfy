/** How long calls take: none outlasts what it sleeps and waits for, and a frame that is
    there is not kept back. */
module Punctuality {
  import opened Bytes
  import opened Pacing
  import opened Delivery
  import opened DeliveryProofs

  // ---------------------------------------------------------------------------------
  // Runs on time
  // ---------------------------------------------------------------------------------

  function TimeOf(s: State, e: Event): int {
    if e.Tick? || e.Enter? || e.Look? || e.Wake? || e.Recheck? || e.Stamp? then e.t else s.clock
  }

  /** No time passes while the reader is awake in a call, and no sleep of it or wait on the
      queue takes more than `slack` longer than asked. */
  predicate OnTime(s: State, e: Event, slack: nat) {
    match s.pc
    case Idle => true
    case Sleeping(_, until) => TimeOf(s, e) <= until + slack
    case Popping(_, until) => if s.cfg.fixedRate then TimeOf(s, e) == s.clock else TimeOf(s, e) <= until + slack
    case _ => TimeOf(s, e) == s.clock
  }

  predicate AllOnTime(s: State, es: seq<Event>, slack: nat)
    requires s.queue.Valid() && Legal(s, es)
    decreases |es|
  {
    es == [] ||
    (OnTime(s, es[0], slack) && (StepKeepsQueueValid(s, es[0]); AllOnTime(Step(s, es[0]), es[1..], slack)))
  }

  // ---------------------------------------------------------------------------------
  // What such runs keep
  // ---------------------------------------------------------------------------------

  /** The call ended no later than its own deadline; and if it handed over a frame at fixed
      rate, no later than a millisecond past the frame's, unless it began later than that. */
  predicate Prompt(e: Ended, cfg: Config, slack: nat) {
    && e.at <= e.call.Deadline() + slack
    && (e.outcome.HandedOver? && cfg.fixedRate ==> e.at <= Max(e.call.begun, e.outcome.due + MILLI + slack))
  }

  predicate AllPrompt(ended: seq<Ended>, cfg: Config, slack: nat) {
    ended == [] || (AllPrompt(ended[..|ended| - 1], cfg, slack) && Prompt(ended[|ended| - 1], cfg, slack))
  }

  lemma {:induction false} AllPromptAppend(ended: seq<Ended>, e: Ended, cfg: Config, slack: nat)
    requires AllPrompt(ended, cfg, slack) && Prompt(e, cfg, slack)
    ensures AllPrompt(ended + [e], cfg, slack)
  {
    assert (ended + [e])[..|ended|] == ended;
  }

  lemma {:induction false} AllPromptAt(ended: seq<Ended>, k: nat, cfg: Config, slack: nat)
    requires AllPrompt(ended, cfg, slack) && k < |ended|
    ensures Prompt(ended[k], cfg, slack)
  {
    if k < |ended| - 1 {
      AllPromptAt(ended[..|ended| - 1], k, cfg, slack);
    }
  }

  /** The call in progress is not late. */
  ghost predicate NotLate(s: State, slack: nat) {
    !s.pc.Idle? ==>
      var call := s.pc.call;
      && call.begun <= s.clock <= call.Deadline() + slack
      && (s.cfg.fixedRate && s.pacer.armed ==> s.clock <= Max(call.begun, s.pacer.deadline + MILLI + slack))
      && (s.cfg.fixedRate && !s.pacer.armed ==> s.clock == call.begun)
      && (s.pc.Sleeping? ==> s.pacer.armed && s.pc.until <= call.Deadline() && s.pc.until <= s.pacer.deadline + MILLI)
      && (s.pc.Popping? && !s.cfg.fixedRate ==> s.pc.until <= call.Deadline())
      && (s.pc.Looking? && !s.cfg.fixedRate ==> s.clock <= call.Deadline())
      && (s.pc.Reporting? ==> s.pc.stamp <= s.clock)
  }

  lemma {:induction false} LookNotLate(s: State, t: int, slack: nat)
    requires Enabled(s, Look(t)) && NotLate(s, slack) && t == s.clock
    ensures NotLate(LookStep(s, t), slack)
  {
    var call := s.pc.call;
    if s.cfg.fixedRate {
      var pacer := Arm(s.pacer, t, s.cfg.period);
      if Judge(pacer, t, call.Deadline()).Sleep? {
        SleepBounded(pacer, t, call.Deadline());
      }
    } else {
      QueueWaitBounded(t, call.Deadline());
    }
  }

  lemma {:induction false} NotLateStep(s: State, e: Event, slack: nat)
    requires Shape(s) && Enabled(s, e) && OnTime(s, e, slack) && NotLate(s, slack)
    ensures NotLate(Step(s, e), slack)
  {
    if e.Look? {
      LookNotLate(s, e.t, slack);
    }
  }

  /** Giving up, timing out and being refused. */
  lemma {:induction false} EmptyHandedPrompt(s: State, e: Event, slack: nat)
    requires Shape(s) && Enabled(s, e) && OnTime(s, e, slack) && NotLate(s, slack)
    requires e.Look? || e.Pop? || e.Recheck?
    ensures var r := Step(s, e);
            r.pc.Idle? ==> |r.ended| == |s.ended| + 1 && r.ended[..|s.ended|] == s.ended && Prompt(r.ended[|s.ended|], s.cfg, slack)
    ensures !Step(s, e).pc.Idle? ==> Step(s, e).ended == s.ended
  {
  }

  /** Handing over. */
  lemma {:induction false} HandOverPrompt(s: State, e: Event, slack: nat)
    requires Shape(s) && PaceInv(s) && Enabled(s, e) && OnTime(s, e, slack) && NotLate(s, slack)
    requires e.Exchange? || e.Stamp?
    ensures var r := Step(s, e);
            r.pc.Idle? ==> |r.ended| == |s.ended| + 1 && r.ended[..|s.ended|] == s.ended && Prompt(r.ended[|s.ended|], s.cfg, slack)
    ensures !Step(s, e).pc.Idle? ==> Step(s, e).ended == s.ended
  {
  }

  /** Whatever ends, ends in time. */
  lemma {:induction false} PromptStep(s: State, e: Event, slack: nat)
    requires Shape(s) && PaceInv(s) && Enabled(s, e) && OnTime(s, e, slack) && NotLate(s, slack)
    requires AllPrompt(s.ended, s.cfg, slack)
    ensures AllPrompt(Step(s, e).ended, s.cfg, slack)
  {
    var r := Step(s, e);
    if e.Look? || e.Pop? || e.Recheck? {
      EmptyHandedPrompt(s, e, slack);
    } else if e.Exchange? || e.Stamp? {
      HandOverPrompt(s, e, slack);
    } else {
      assert r.ended == s.ended;
    }
    if |r.ended| > |s.ended| {
      assert r.ended == s.ended + [r.ended[|s.ended|]];
      AllPromptAppend(s.ended, r.ended[|s.ended|], s.cfg, slack);
    }
  }

  lemma {:induction false} PromptRun(s: State, es: seq<Event>, slack: nat)
    requires Inv(s) && NotLate(s, slack) && AllPrompt(s.ended, s.cfg, slack)
    requires Legal(s, es) && AllOnTime(s, es, slack)
    ensures AllPrompt(Run(s, es).ended, s.cfg, slack) && NotLate(Run(s, es), slack)
    decreases |es|
  {
    if es != [] {
      ShapeStep(s, es[0]);
      InvStep(s, es[0]);
      NotLateStep(s, es[0], slack);
      PromptStep(s, es[0], slack);
      PromptRun(Step(s, es[0]), es[1..], slack);
    }
  }

  /** In a run in which no sleep or wait takes more than `slack` longer than asked, every
      call ends by its own deadline, and a fixed-rate call delivers by a millisecond past
      the deadline of its frame or at once. None is still going on after its deadline. */
  lemma {:induction false} CallsArePrompt(s: State, es: seq<Event>, slack: nat)
    requires Initial(s) && Legal(s, es) && AllOnTime(s, es, slack)
    ensures forall k | 0 <= k < |Run(s, es).ended| :: Prompt(Run(s, es).ended[k], s.cfg, slack)
    ensures var r := Run(s, es); !r.pc.Idle? ==> r.clock <= r.pc.call.Deadline() + slack
  {
    InitialInv(s);
    PromptRun(s, es, slack);
    forall k | 0 <= k < |Run(s, es).ended|
      ensures Prompt(Run(s, es).ended[k], s.cfg, slack)
    {
      AllPromptAt(Run(s, es).ended, k, s.cfg, slack);
    }
  }

  /** A read without fixed rate that found nothing ends at the first look at the clock at or
      past its deadline, and goes on at any look before. */
  lemma {:induction false} RecheckDecides(s: State, t: int)
    requires s.queue.Valid() && Enabled(s, Recheck(t))
    ensures var r, call := Step(s, Recheck(t)), s.pc.call;
            && r.clock == t && r.out == s.out
            && (t >= call.begun + call.timeout ==> r.pc.Idle? && r.ended == s.ended + [Ended(call, TimedOut, t)])
            && (t < call.begun + call.timeout ==> r.pc == Looking(call) && r.ended == s.ended)
  {
  }

  // ---------------------------------------------------------------------------------
  // Stamps
  // ---------------------------------------------------------------------------------

  /** Stamps do not decrease, and none is past `bound`. */
  predicate StampedBy(out: seq<Delivered>, bound: int) {
    out == [] || (out[|out| - 1].beat.stamp <= bound && StampedBy(out[..|out| - 1], out[|out| - 1].beat.stamp))
  }

  lemma {:induction false} StampedAppend(out: seq<Delivered>, d: Delivered, bound: int)
    requires StampedBy(out, d.beat.stamp) && d.beat.stamp <= bound
    ensures StampedBy(out + [d], bound)
  {
    assert (out + [d])[..|out|] == out;
  }

  lemma {:induction false} StampedLater(out: seq<Delivered>, bound: int, later: int)
    requires StampedBy(out, bound) && bound <= later
    ensures StampedBy(out, later)
  {
  }

  ghost predicate StampInv(s: State) {
    && StampedBy(s.out, s.clock)
    && (s.pc.Reporting? ==> s.pc.stamp <= s.clock && StampedBy(s.out, s.pc.stamp))
  }

  /** A delivery is stamped at the clock, or was before. */
  lemma {:induction false} StampReturn(s: State, e: Event)
    requires s.queue.Valid() && Enabled(s, e) && StampInv(s) && (e.Exchange? || e.Stamp?)
    ensures StampInv(Step(s, e))
  {
    var r := Step(s, e);
    StampedLater(s.out, s.clock, r.clock);
    if r.pc.Idle? {
      var d := r.out[|s.out|];
      assert r.out == s.out + [d];
      assert StampedBy(s.out, d.beat.stamp) && d.beat.stamp <= r.clock;
      StampedAppend(s.out, d, r.clock);
    }
  }

  lemma {:induction false} StampOther(s: State, r: State)
    requires StampInv(s) && r.out == s.out && r.clock >= s.clock
    requires r.pc.Reporting? ==> r.pc == s.pc
    ensures StampInv(r)
  {
    StampedLater(s.out, s.clock, r.clock);
  }

  lemma {:induction false} StampStepKeeps(s: State, e: Event)
    requires s.queue.Valid() && Enabled(s, e) && StampInv(s)
    ensures StampInv(Step(s, e))
  {
    if e.Exchange? || e.Stamp? {
      StampReturn(s, e);
    } else {
      StampOther(s, Step(s, e));
    }
  }

  lemma {:induction false} StampRun(s: State, es: seq<Event>)
    requires s.queue.Valid() && Legal(s, es) && StampInv(s)
    ensures StampInv(Run(s, es))
    decreases |es|
  {
    if es != [] {
      StepKeepsQueueValid(s, es[0]);
      StampStepKeeps(s, es[0]);
      StampRun(Step(s, es[0]), es[1..]);
    }
  }

  /** Over every run the stamps follow the clock: they do not decrease and none is ahead. */
  lemma {:induction false} StampsInOrder(s: State, es: seq<Event>)
    requires Initial(s) && Legal(s, es)
    ensures StampedBy(Run(s, es).out, Run(s, es).clock)
  {
    StampRun(s, es);
  }

  /** The stamp is the sample taken at the end, not another time: at fixed rate the frame is
      handed over with it, otherwise it is kept until the flags are exchanged. */
  lemma {:induction false} StampIsSample(s: State, t: int)
    requires s.queue.Valid() && Enabled(s, Stamp(t))
    ensures var r := Step(s, Stamp(t));
            if r.pc.Idle? then |r.out| == |s.out| + 1 && r.out[|s.out|].beat.stamp == t
            else r.pc.Reporting? && Step(r, Exchange).out[|s.out|].beat.stamp == t
  {
  }

  // ---------------------------------------------------------------------------------
  // Who arms the pacer
  // ---------------------------------------------------------------------------------

  predicate NoneArms(ended: seq<Ended>, from: nat) {
    forall k | from <= k < |ended| :: !ended[k].call.arming
  }

  /** Once the pacer is armed it stays so, and no later call is the one that armed it. */
  lemma {:induction false} ArmedForGood(s: State, es: seq<Event>, from: nat)
    requires s.queue.Valid() && Legal(s, es) && s.pacer.armed && from <= |s.ended|
    requires (s.pc.Idle? || !s.pc.call.arming) && NoneArms(s.ended, from)
    ensures Run(s, es).pacer.armed && NoneArms(Run(s, es).ended, from)
    decreases |es|
  {
    if es != [] {
      StepKeepsQueueValid(s, es[0]);
      ArmedStep(s, es[0]);
      ArmedForGood(Step(s, es[0]), es[1..], from);
    }
  }

  lemma {:induction false} ArmedStep(s: State, e: Event)
    requires s.queue.Valid() && Enabled(s, e) && s.pacer.armed && (s.pc.Idle? || !s.pc.call.arming)
    ensures var r := Step(s, e);
            && r.pacer.armed && (r.pc.Idle? || !r.pc.call.arming)
            && s.ended <= r.ended && |r.ended| <= |s.ended| + 1
            && (|r.ended| > |s.ended| ==> !r.ended[|s.ended|].call.arming)
  {
  }
}
