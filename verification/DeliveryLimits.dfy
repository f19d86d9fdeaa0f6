/** How far the promises of the reading side go: runs that show where they end, and the
    exact conditions under which they hold. */
module DeliveryLimits {
  import opened FrameLog
  import opened Pacing
  import opened Bytes
  import opened Delivery
  import opened DeliveryProofs
  import opened DeliveryTheorems

  predicate ReaderOnly(es: seq<Event>) {
    forall e | e in es :: e.OfReader()
  }

  // ---------------------------------------------------------------------------------
  // Two calls, from beginning to end
  // ---------------------------------------------------------------------------------

  /** A first call that does not wait arms the pacer and comes back empty-handed. */
  lemma {:induction false} ArmingCall(s: State, info: bool) returns (es: seq<Event>)
    requires s.queue.Valid() && s.pc.Idle? && s.cfg.fixedRate && s.cfg.period > 0 && !s.pacer.armed
    ensures Legal(s, es) && ReaderOnly(es)
    ensures Run(s, es) == s.(pacer := Pacer(s.clock + s.cfg.period, true),
                             ended := s.ended + [Ended(Call(s.clock, 0, info, true, 0, 0, 0), TimedOut, s.clock)])
  {
    var t, call := s.clock, Call(s.clock, 0, info, false, 0, 0, 0);
    var s1 := s.(pc := Looking(call));
    assert Step(s, Enter(t, 0, info)) == s1;
    assert Judge(Pacer(t + s.cfg.period, true), t, t) == GiveUp;
    RunCons(s1, Look(t), []);
    RunCons(s, Enter(t, 0, info), [Look(t)] + []);
    es := [Enter(t, 0, info)] + ([Look(t)] + []);
  }

  /** A call that finds its frame due and the queue empty delivers silence at once. */
  lemma {:induction false} SilentCall(s: State, t: int, info: bool) returns (es: seq<Event>)
    requires s.queue.Valid() && s.queue.PopResult().Empty? && s.pc.Idle? && s.cfg.fixedRate && t >= s.clock
    requires Arm(s.pacer, t, s.cfg.period).deadline <= t
    ensures Legal(s, es) && ReaderOnly(es)
    ensures var r := Run(s, es);
            var pacer := Arm(s.pacer, t, s.cfg.period);
            && r.cfg == s.cfg && r.queue == s.queue && r.pc.Idle? && r.clock == t && r.pending == {}
            && r.pacer == Advance(pacer, s.cfg.period, t)
            && r.out == s.out + [Delivered(Taken(Zeros(s.cfg.frameBytes), Silent), Beat(pacer.deadline, t),
                                           FlagsOf(s.pending, 0, Silent), 0, info)]
  {
    var pacer := Arm(s.pacer, t, s.cfg.period);
    var call := Call(t, 0, info, false, 0, 0, 0);
    var s1 := s.(clock := t, pc := Looking(call));
    var s2 := s1.(pacer := pacer, pc := Popping(call.(arming := !s.pacer.armed), t));
    assert Step(s, Enter(t, 0, info)) == s1;
    assert Step(s1, Look(t)) == s2;
    var rest := SilenceTaken(s2);
    RunCons(s1, Look(t), rest);
    RunCons(s, Enter(t, 0, info), [Look(t)] + rest);
    es := [Enter(t, 0, info)] + ([Look(t)] + rest);
  }

  /** From the pop on. */
  lemma {:induction false} SilenceTaken(s: State) returns (es: seq<Event>)
    requires s.queue.Valid() && s.queue.PopResult().Empty? && s.pc.Popping? && s.cfg.fixedRate
    requires s.pc.call.discarded == 0
    ensures Legal(s, es) && ReaderOnly(es)
    ensures var r := Run(s, es);
            && r.cfg == s.cfg && r.queue == s.queue && r.pc.Idle? && r.clock == s.clock && r.pending == {}
            && r.pacer == Advance(s.pacer, s.cfg.period, s.clock)
            && r.out == s.out + [Delivered(Taken(Zeros(s.cfg.frameBytes), Silent), Beat(s.pacer.deadline, s.clock),
                                           FlagsOf(s.pending, 0, Silent), 0, s.pc.call.info)]
  {
    DropsOnlyWhenFull(s.queue);
    var t, call := s.clock, s.pc.call;
    var silence := Taken(Zeros(s.cfg.frameBytes), Silent);
    var s3 := s.(pc := Exchanging(call, silence));
    var s4 := s3.(pending := {}, pc := Stamping(call, silence, FlagsOf(s.pending, 0, Silent)));
    assert Step(s, Pop) == s3;
    assert Step(s3, Exchange) == s4;
    RunCons(s4, Stamp(t), []);
    RunCons(s3, Exchange, [Stamp(t)] + []);
    RunCons(s, Pop, [Exchange] + ([Stamp(t)] + []));
    es := [Pop] + ([Exchange] + ([Stamp(t)] + []));
  }

  // ---------------------------------------------------------------------------------
  // Timeouts
  // ---------------------------------------------------------------------------------

  /** No call with this timeout comes back empty-handed, in any run at this period, unless
      it armed the pacer. */
  ghost predicate NeverInVain(period: nat, timeout: nat) {
    forall s: State, es: seq<Event>, k: nat |
      && Initial(s) && Legal(s, es) && s.cfg.fixedRate && s.cfg.period == period
      && k < |Run(s, es).ended| && Run(s, es).ended[k].call.timeout == timeout && !Run(s, es).ended[k].call.arming
      :: !Run(s, es).ended[k].outcome.TimedOut?
  }

  /** A call that waits no longer than a period can look at the clock a tenth of a
      microsecond before its own deadline, find less than a microsecond left, and give up,
      although no sleep of it was cut short. */
  lemma {:induction false} ShortTimeoutInVain(period: nat, timeout: nat) returns (s: State, es: seq<Event>)
    requires 0 < period && timeout <= period
    ensures Initial(s) && Legal(s, es) && s.cfg.fixedRate && s.cfg.period == period
    ensures |Run(s, es).ended| == 2
    ensures var last := Run(s, es).ended[1];
            last.outcome.TimedOut? && !last.call.arming && last.call.sleeps == 0 && last.call.timeout == timeout
  {
    s := State(Config(period, 1, true), Fresh(1), {}, Pacer(0, false), 0, Idle, [], [], 0);
    var first := ArmingCall(s, true);
    var s2 := Run(s, first);
    var t := Max(0, timeout - 100);
    var call := Call(0, timeout, true, false, 0, 0, 0);
    var s3 := s2.(pc := Looking(call));
    var s4 := s2.(clock := t, ended := s2.ended + [Ended(call, TimedOut, t)]);
    assert Step(s2, Enter(0, timeout, true)) == s3;
    assert Judge(Pacer(period, true), t, timeout) == GiveUp by {
      assert TruncMicros(timeout - t) == 0;
    }
    assert Step(s3, Look(t)) == s4;
    RunCons(s3, Look(t), []);
    RunCons(s2, Enter(0, timeout, true), [Look(t)] + []);
    RunConcat(s, first, [Enter(0, timeout, true)] + ([Look(t)] + []));
    es := first + ([Enter(0, timeout, true)] + ([Look(t)] + []));
  }

  /** With a period of zero every look finds the frame due, so no call times out. */
  ghost predicate Prompt(s: State) {
    forall k | 0 <= k < |s.ended| :: !s.ended[k].outcome.TimedOut?
  }

  lemma {:induction false} PromptStep(s: State, e: Event)
    requires Inv(s) && Enabled(s, e) && s.cfg.fixedRate && s.cfg.period == 0 && Prompt(s)
    ensures Prompt(Step(s, e))
  {
    if e.Look? {
      assert Judge(Arm(s.pacer, e.t, 0), e.t, s.pc.call.Deadline()) == Due;
    }
  }

  lemma {:induction false} PromptRun(s: State, es: seq<Event>)
    requires Inv(s) && Legal(s, es) && s.cfg.fixedRate && s.cfg.period == 0 && Prompt(s)
    ensures Prompt(Run(s, es))
    decreases |es|
  {
    if es != [] {
      ShapeStep(s, es[0]);
      InvStep(s, es[0]);
      PromptStep(s, es[0]);
      PromptRun(Step(s, es[0]), es[1..]);
    }
  }

  lemma {:induction false} ZeroPeriodNeverInVain(timeout: nat)
    ensures NeverInVain(0, timeout)
  {
    forall s: State, es: seq<Event>, k: nat |
      && Initial(s) && Legal(s, es) && s.cfg.fixedRate && s.cfg.period == 0
      && k < |Run(s, es).ended| && Run(s, es).ended[k].call.timeout == timeout && !Run(s, es).ended[k].call.arming
      ensures !Run(s, es).ended[k].outcome.TimedOut?
    {
      InitialInv(s);
      PromptRun(s, es);
    }
  }

  /** Timeouts are whole milliseconds and periods whole microseconds. Among these, exactly
      the timeouts longer than the period are never in vain, but for a period of zero, at
      which none is. */
  lemma {:induction false} TimeoutExactly(periodMicros: nat, timeoutMillis: nat)
    ensures NeverInVain(periodMicros * MICRO, timeoutMillis * MILLI)
            <==> periodMicros == 0 || timeoutMillis * MILLI > periodMicros * MICRO
  {
    var period, timeout := periodMicros * MICRO, timeoutMillis * MILLI;
    if period == 0 {
      ZeroPeriodNeverInVain(timeout);
    } else if timeout <= period {
      var s, es := ShortTimeoutInVain(period, timeout);
      assert Run(s, es).ended[1].outcome.TimedOut?;
      assert !NeverInVain(period, timeout);
    } else {
      assert timeoutMillis * 1000 >= periodMicros + 1;
      LongTimeoutNeverInVain(period, timeout);
    }
  }

  lemma {:induction false} LongTimeoutNeverInVain(period: nat, timeout: nat)
    requires timeout >= period + MICRO
    ensures NeverInVain(period, timeout)
  {
    forall s: State, es: seq<Event>, k: nat |
      && Initial(s) && Legal(s, es) && s.cfg.fixedRate && s.cfg.period == period
      && k < |Run(s, es).ended| && Run(s, es).ended[k].call.timeout == timeout && !Run(s, es).ended[k].call.arming
      ensures !Run(s, es).ended[k].outcome.TimedOut?
    {
      NoSpuriousTimeout(s, es, k);
    }
  }

  // ---------------------------------------------------------------------------------
  // A period of zero
  // ---------------------------------------------------------------------------------

  predicate StampedAt(out: seq<Delivered>, t: int) {
    forall k | 0 <= k < |out| :: out[k].beat.stamp == t
  }

  /** With a period of zero, which a frame shorter than a microsecond has, nothing holds
      the reader back: any number of frames can be delivered in one instant. */
  lemma {:induction false} ZeroPeriodBurst(s: State, n: nat) returns (es: seq<Event>)
    requires Initial(s) && s.cfg.fixedRate && s.cfg.period == 0
    ensures Legal(s, es)
    ensures var r := Run(s, es);
            && |r.out| == n && StampedAt(r.out, s.clock)
            && r.cfg == s.cfg && r.queue == s.queue && r.pc.Idle? && r.clock == s.clock
            && (r.pacer.armed ==> r.pacer.deadline == s.clock)
  {
    if n == 0 {
      es := [];
    } else {
      var before := ZeroPeriodBurst(s, n - 1);
      var r := Run(s, before);
      var last := SilentCall(r, s.clock, true);
      RunConcat(s, before, last);
      es := before + last;
    }
  }

  /** The rate is bounded: some number of deliveries is enough for any window of this
      length in any run. */
  ghost predicate Bounded(period: nat, length: nat, most: nat) {
    forall s: State, es: seq<Event>, from: int |
      Initial(s) && Legal(s, es) && s.cfg.fixedRate && s.cfg.period == period
      :: |Inside(Beats(Run(s, es).out), from, length)| <= most
  }

  /** The rate is bounded if and only if the period is not zero. */
  lemma {:induction false} RateBoundedExactly(period: nat, length: nat)
    ensures period > 0 ==> Bounded(period, length, length / period + 2)
    ensures period == 0 ==> forall most: nat :: !Bounded(period, length, most)
  {
    if period > 0 {
      forall s: State, es: seq<Event>, from: int |
        Initial(s) && Legal(s, es) && s.cfg.fixedRate && s.cfg.period == period
        ensures |Inside(Beats(Run(s, es).out), from, length)| <= length / period + 2
      {
        RateBound(s, es, from, length);
      }
    } else {
      forall most: nat
        ensures !Bounded(period, length, most)
      {
        Unbounded(length, most);
      }
    }
  }

  lemma {:induction false} Unbounded(length: nat, most: nat)
    ensures !Bounded(0, length, most)
  {
    var s := State(Config(0, 1, true), Fresh(1), {}, Pacer(0, false), 0, Idle, [], [], 0);
    var es := ZeroPeriodBurst(s, most + 1);
    var beats := Beats(Run(s, es).out);
    forall k | 0 <= k < |beats|
      ensures beats[k].stamp == 0
    {
      BeatsAt(Run(s, es).out, k);
    }
    AllCounted(beats, 0, length);
    assert |Inside(Beats(Run(s, es).out), 0, length)| == most + 1;
  }
}
