/** What `create` accepts, and accepted configurations for which a premise of the other
    modules fails. */
module Configuration {
  import opened Bytes
  import opened FrameRing
  import opened FramePeriod
  import opened Pacing
  import opened DeliveryLimits
  import opened AudioCadence

  /** A configuration after the zero values have been replaced by defaults. `format` is the
      number of the sample format: 32-bit float, 16-bit or 32-bit integers. */
  datatype Settings = Settings(sampleRate: nat, channels: nat, frameSamples: nat, format: nat, queueFrames: nat) {
    predicate InRange() {
      sampleRate < TWO_32 && channels < TWO_32 && frameSamples < TWO_32 && queueFrames < TWO_32
    }

    /** The tests of `create`. */
    predicate Accepted() {
      && sampleRate != 0 && frameSamples != 0 && channels != 0
      && (channels == 1 || channels == 2 || channels == 6 || channels == 8)
      && (format == 0 || format == 1 || format == 2)
    }

    /** `frame_bytes`, in 64-bit `size_t`. */
    function FrameBytes(): nat {
      (frameSamples * channels * (if format == 1 then 2 else if format == 0 || format == 2 then 4 else 0)) % TWO_64
    }
  }

  /** An accepted configuration has frames of at least two bytes, so that the ring does not
      refuse them, and their size does not wrap. */
  lemma {:induction false} AcceptedFrames(s: Settings)
    requires s.InRange() && s.Accepted()
    ensures s.FrameBytes() == s.frameSamples * s.channels * (if s.format == 1 then 2 else 4)
    ensures 2 * s.frameSamples <= s.FrameBytes() <= 32 * s.frameSamples
  {
    var width := if s.format == 1 then 2 else 4;
    var n := s.frameSamples;
    if s.channels == 1 {
      assert n * s.channels * width == n * width;
    } else if s.channels == 2 {
      assert n * s.channels * width == n * 2 * width;
    } else if s.channels == 6 {
      assert n * s.channels * width == n * 6 * width;
    } else {
      assert n * s.channels * width == n * 8 * width;
    }
  }

  /** The ring of an accepted configuration has its storage if and only if the product of
      frame size and queue length stays below 2^64. */
  lemma {:induction false} StorageForSettings(s: Settings)
    requires s.InRange() && s.Accepted()
    ensures StorageBytes(s.FrameBytes(), s.queueFrames) == Max(s.queueFrames, 1) * s.FrameBytes()
            <==> Max(s.queueFrames, 1) * s.FrameBytes() < TWO_64
  {
    StorageExact(s.FrameBytes(), s.queueFrames);
  }

  /** An accepted configuration that wraps: 2^30 stereo float samples a frame and 2^31
      frames. The ring then has no storage at all, not even for the slot that the first
      push writes. */
  lemma {:induction false} StorageWraps()
    ensures var s := Settings(48_000, 2, 0x4000_0000, 0, 0x8000_0000);
            && s.InRange() && s.Accepted()
            && StorageBytes(s.FrameBytes(), s.queueFrames) == 0 < Base(0, s.FrameBytes()) + s.FrameBytes()
  {
    BaseIsProduct(0x8000_0000, 0x2_0000_0000);
  }

  /** An accepted configuration that bursts: one sample a frame at 2 MHz. */
  lemma {:induction false} OneSampleBursts(most: nat)
    ensures var s := Settings(2_000_000, 2, 1, 0, 64);
            && s.InRange() && s.Accepted()
            && !Bounded(PeriodMicros(s.frameSamples, s.sampleRate) * MICRO, 0, most)
  {
    assert PeriodMicros(1, 2_000_000) == 0;
    BoundedExactly(1, 2_000_000, 0);
  }
}
