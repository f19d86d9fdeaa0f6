/** The duration of one frame. */
module FramePeriod {
  import opened Bytes

  const MICROS: nat := 1_000_000

  /** Whole microseconds in one frame; the integer division drops the fraction. */
  function PeriodMicros(frameSamples: nat, sampleRate: nat): nat
    requires sampleRate > 0
  {
    (frameSamples * MICROS) / sampleRate
  }

  /** The product the division starts from fits a signed 64-bit integer for every
      32-bit sample count. */
  lemma {:induction false} PeriodFits(frameSamples: nat)
    requires frameSamples < TWO_32
    ensures frameSamples * MICROS < TWO_63
  {
    assert frameSamples * MICROS <= TWO_32 * MICROS;
  }

  /** And the period is below 2^42 milliseconds. */
  lemma {:induction false} PeriodBelow(frameSamples: nat, sampleRate: nat)
    requires frameSamples < TWO_32 && sampleRate > 0
    ensures PeriodMicros(frameSamples, sampleRate) < TWO_42 * 1000
  {
    var total := frameSamples * MICROS;
    QuotientBounds(total, sampleRate);
    ScaleLe(total / sampleRate, 1, sampleRate);
    assert total / sampleRate <= total <= TWO_32 * MICROS;
  }

  /** A frame lasts at least one whole microsecond exactly when its samples do. */
  lemma {:induction false} PeriodPositive(frameSamples: nat, sampleRate: nat)
    requires sampleRate > 0
    ensures PeriodMicros(frameSamples, sampleRate) > 0 <==> frameSamples * MICROS >= sampleRate
  {
    var total := frameSamples * MICROS;
    QuotientBounds(total, sampleRate);
    if total / sampleRate >= 1 {
      ScaleLe(sampleRate, 1, total / sampleRate);
    }
  }

  lemma {:induction false} QuotientBounds(total: nat, rate: nat)
    requires rate > 0
    ensures rate * (total / rate) <= total < rate * (total / rate) + rate
    ensures rate * (total / rate) == total <==> total % rate == 0
  {
    assert total == rate * (total / rate) + total % rate;
  }

  /** n periods trail the n frames of audio they stand for, and by less than n
      microseconds; there is no lag exactly when a frame is a whole number of
      microseconds. Times are scaled by the sample rate, so the comparison is exact. */
  lemma {:induction false} PeriodsTrailAudio(frameSamples: nat, sampleRate: nat, n: nat)
    requires sampleRate > 0 && n > 0
    ensures var paced := n * PeriodMicros(frameSamples, sampleRate);
            var audio := n * (frameSamples * MICROS);
            && sampleRate * paced <= audio < sampleRate * (paced + n)
            && (sampleRate * paced == audio <==> (frameSamples * MICROS) % sampleRate == 0)
  {
    var total := frameSamples * MICROS;
    var p := total / sampleRate;
    QuotientBounds(total, sampleRate);
    calc {
      sampleRate * (n * p);
      n * (sampleRate * p);
    }
    assert n * (sampleRate * p) <= n * total by { ScaleLe(n, sampleRate * p, total); }
    assert n * total < n * (sampleRate * p + sampleRate) by { ScaleLt(n, total, sampleRate * p + sampleRate); }
    calc {
      n * (sampleRate * p + sampleRate);
      n * (sampleRate * p) + n * sampleRate;
      sampleRate * (n * p) + sampleRate * n;
      sampleRate * (n * p + n);
    }
    if sampleRate * p < total {
      ScaleLt(n, sampleRate * p, total);
    }
  }

  lemma {:induction false} ScaleLe(n: nat, a: int, b: int)
    requires a <= b
    ensures n * a <= n * b
  {
  }

  lemma {:induction false} ScaleLt(n: nat, a: int, b: int)
    requires a < b && n > 0
    ensures n * a < n * b
  {
  }

  /** The frame duration of 2.5 ms that Opus allows (section 2.1.4 of RFC 6716) is exact at
      every rate at which it is a whole number of samples; rounded to milliseconds it would
      be 2 ms. */
  lemma {:induction false} OpusShortFrame(samples: nat)
    requires samples > 0
    ensures PeriodMicros(samples, 400 * samples) == 2_500
  {
    var total, rate := samples * MICROS, 400 * samples;
    QuotientBounds(total, rate);
    var q := total / rate;
    assert total == rate * 2_500;
    if q < 2_500 {
      ScaleLe(rate, q + 1, 2_500);
    } else if q > 2_500 {
      ScaleLe(rate, 2_501, q);
    }
  }
}
