/** The cadence of the reader against the audio it hands over. */
module AudioCadence {
  import opened FramePeriod
  import opened Pacing
  import opened Delivery
  import opened DeliveryTheorems
  import opened DeliveryLimits

  /** Punctual pacing keeps up with the audio: n frames after the first deadline the pacer
      is behind the audio handed over by less than n microseconds, and not at all when a
      frame is a whole number of microseconds. Times are scaled by the sample rate. */
  lemma {:induction false} CadenceTracksAudio(s: State, es: seq<Event>, frameSamples: nat, sampleRate: nat)
    requires Initial(s) && Legal(s, es) && s.cfg.fixedRate && Run(s, es).out != []
    requires sampleRate > 0 && s.cfg.period == PeriodMicros(frameSamples, sampleRate) * MICRO
    requires forall k | 0 <= k < |Run(s, es).out| ::
               Run(s, es).out[k].beat.stamp <= Run(s, es).out[k].beat.due + s.cfg.period
    ensures var r := Run(s, es);
            var n := |r.out|;
            var paced, audio := r.pacer.deadline - r.out[0].beat.due, n * (frameSamples * MICROS) * MICRO;
            && sampleRate * paced <= audio < sampleRate * (paced + n * MICRO)
            && (sampleRate * paced == audio <==> (frameSamples * MICROS) % sampleRate == 0)
  {
    CadenceHolds(s, es);
    var n := |Run(s, es).out|;
    var p := PeriodMicros(frameSamples, sampleRate);
    PeriodsTrailAudio(frameSamples, sampleRate, n);
    Rescale(sampleRate, n, p);
  }

  lemma {:induction false} Rescale(rate: nat, n: nat, p: nat)
    ensures rate * (n * (p * MICRO)) == rate * (n * p) * MICRO
    ensures rate * (n * (p * MICRO) + n * MICRO) == rate * (n * p + n) * MICRO
  {
  }

  /** Whether the rate is bounded at all can be told from the configuration: exactly when
      the samples of a frame last a microsecond or more, which `create` does not ask for. */
  lemma {:induction false} BoundedExactly(frameSamples: nat, sampleRate: nat, length: nat)
    requires sampleRate > 0
    ensures (exists most: nat :: Bounded(PeriodMicros(frameSamples, sampleRate) * MICRO, length, most))
            <==> frameSamples * MICROS >= sampleRate
  {
    var period := PeriodMicros(frameSamples, sampleRate) * MICRO;
    PeriodPositive(frameSamples, sampleRate);
    RateBoundedExactly(period, length);
    if period > 0 {
      assert Bounded(period, length, length / period + 2);
    }
  }
}
