/** The WAV file that the example program records: a header with placeholder sizes, the
    frames, and two patches once the length is known. The layout is that of the "Waveform
    Audio File Format (WAVE)" section of the Microsoft/IBM Multimedia Programming
    Interface and Data Specifications 1.0.
 */
module Wav {
  import opened Bytes
  import opened Options

  datatype SampleFormat = F32LE | S16LE | S32LE

  datatype Format = Format(sampleRate: nat, channels: nat, sample: SampleFormat)

  function SampleBytes(f: SampleFormat): nat {
    if f.S16LE? then 2 else 4
  }

  function FormatCode(f: SampleFormat): nat {
    if f.F32LE? then 3 else 1
  }

  /** What a created handle can report: a 32-bit rate and a supported channel count. */
  predicate Supported(f: Format) {
    f.sampleRate < TWO_32 && f.channels in {1, 2, 6, 8}
  }

  /** Bytes for one sample of every channel. */
  function BlockAlign(f: Format): nat {
    if SampleBytes(f.sample) == 2 then f.channels * 2 else f.channels * 4
  }

  /** a * k, written as a sum. */
  function Times(a: nat, k: nat): nat {
    if k == 0 then 0 else a + Times(a, k - 1)
  }

  lemma {:induction false} TimesIsProduct(a: nat, k: nat)
    ensures Times(a, k) == a * k
  {
    if k > 0 {
      TimesIsProduct(a, k - 1);
      assert a * k == a + a * (k - 1);
    }
  }

  function ByteRate(f: Format): nat {
    Times(f.sampleRate, BlockAlign(f))
  }

  // ---------------------------------------------------------------------------------
  // Little-endian fields
  // ---------------------------------------------------------------------------------

  /** The low n bytes of v, the least first. */
  function LE(v: nat, n: nat): (r: seq<byte>)
    ensures |r| == n
  {
    if n == 0 then [] else [v % 256] + LE(v / 256, n - 1)
  }

  function LE16(v: nat): (r: seq<byte>)
    ensures |r| == 2
  {
    LE(v, 2)
  }

  function LE32(v: nat): (r: seq<byte>)
    ensures |r| == 4
  {
    LE(v, 4)
  }

  /** The number that bytes denote, the least first. */
  function Number(b: seq<byte>): nat {
    if b == [] then 0 else b[0] + 256 * Number(b[1..])
  }

  /** One more than the greatest number of n bytes. */
  function Range(n: nat): (r: nat)
    ensures r > 0
  {
    if n == 0 then 1 else 256 * Range(n - 1)
  }

  /** A field reads back as the value it was given, cut to its width. */
  lemma {:induction false} FieldRoundTrip(v: nat, n: nat)
    requires n <= 4
    ensures Number(LE(v, n)) == v % Range(n)
  {
    if n > 0 {
      FieldRoundTrip(v / 256, n - 1);
      assert LE(v, n)[1..] == LE(v / 256, n - 1);
      RangeValue(n);
      RangeValue(n - 1);
      RemainderSplit(v, n);
    }
  }

  lemma {:induction false} RangeValue(n: nat)
    requires n <= 4
    ensures Range(n) == [1, 0x100, 0x1_0000, 0x100_0000, 0x1_0000_0000][n]
  {
    if n > 0 {
      RangeValue(n - 1);
    }
  }

  lemma {:induction false} RemainderSplit(v: nat, n: nat)
    requires 1 <= n <= 4
    ensures var m := [1, 0x100, 0x1_0000, 0x100_0000, 0x1_0000_0000];
            v % m[n] == v % 256 + 256 * (v / 256 % m[n - 1])
  {
  }

  lemma {:induction false} FieldRoundTrip16(v: nat)
    ensures Number(LE16(v)) == v % TWO_16
  {
    FieldRoundTrip(v, 2);
    RangeValue(2);
  }

  lemma {:induction false} FieldRoundTrip32(v: nat)
    ensures Number(LE32(v)) == v % TWO_32
  {
    FieldRoundTrip(v, 4);
    RangeValue(4);
  }

  lemma {:induction false} Fits(v: nat, m: nat)
    requires m == TWO_16 || m == TWO_32
    ensures v % m == v <==> v < m
  {
  }

  // ---------------------------------------------------------------------------------
  // The file and its reader
  // ---------------------------------------------------------------------------------

  const RIFF: seq<byte> := [0x52, 0x49, 0x46, 0x46]
  const WAVE_FMT: seq<byte> := [0x57, 0x41, 0x56, 0x45, 0x66, 0x6D, 0x74, 0x20]
  const DATA: seq<byte> := [0x64, 0x61, 0x74, 0x61]
  const HEADER: nat := 44

  /** The sixteen bytes that describe the samples. */
  function Describe(code: nat, channels: nat, rate: nat, byteRate: nat, align: nat, bits: nat): (r: seq<byte>)
    ensures |r| == 16
  {
    LE16(code) + LE16(channels) + LE32(rate) + LE32(byteRate) + LE16(align) + LE16(bits)
  }

  function Description(f: Format): (r: seq<byte>)
    ensures |r| == 16
  {
    Describe(FormatCode(f.sample), f.channels, f.sampleRate, ByteRate(f), BlockAlign(f), SampleBytes(f.sample) * 8)
  }

  /** A file with the given description and size fields. */
  function Image(description: seq<byte>, riffSize: nat, dataSize: nat, pcm: seq<byte>): (r: seq<byte>)
    requires |description| == 16
    ensures |r| == HEADER + |pcm|
  {
    RIFF + LE32(riffSize) + WAVE_FMT + LE32(16) + description + DATA + LE32(dataSize) + pcm
  }

  function Flatten(frames: seq<Frame>): seq<byte> {
    if frames == [] then [] else Flatten(frames[..|frames| - 1]) + frames[|frames| - 1]
  }

  /** A finished recording. */
  function Recording(f: Format, frames: seq<Frame>): seq<byte> {
    var n := |Flatten(frames)|;
    Image(Description(f), 36 + n, n, Flatten(frames))
  }

  /** What a reader makes of a file. */
  datatype Contents = Contents(format: Format, byteRate: nat, pcm: seq<byte>)

  function SampleOf(code: nat, bits: nat): Option<SampleFormat> {
    if code == 3 && bits == 32 then Some(F32LE)
    else if code == 1 && bits == 16 then Some(S16LE)
    else if code == 1 && bits == 32 then Some(S32LE)
    else None
  }

  /** Read the sixteen bytes that describe the samples: the format code must go with the
      sample width, and the block size with both. */
  function ParseDescription(d: seq<byte>): Option<(Format, nat)>
    requires |d| == 16
  {
    match SampleOf(Number(d[0..2]), Number(d[14..16]))
    case None => None
    case Some(sample) =>
      var format := Format(Number(d[4..8]), Number(d[2..4]), sample);
      if Number(d[12..14]) == BlockAlign(format) then Some((format, Number(d[8..12]))) else None
  }

  /** A reader that insists on everything the layout prescribes: the tags, both sizes, and
      a consistent description. */
  function Parse(b: seq<byte>): Option<Contents> {
    if |b| < HEADER then None
    else if b[0..4] != RIFF || b[8..16] != WAVE_FMT || Number(b[16..20]) != 16 || b[36..40] != DATA then None
    else if Number(b[4..8]) + 8 != |b| || Number(b[40..44]) + HEADER != |b| then None
    else match ParseDescription(b[20..36])
      case None => None
      case Some((format, byteRate)) => Some(Contents(format, byteRate, b[HEADER..]))
  }

  /** Cut samples into frames of n bytes. */
  function Split(pcm: seq<byte>, n: nat): seq<Frame>
    requires n > 0
    decreases |pcm|
  {
    if |pcm| < n then [] else Split(pcm[..|pcm| - n], n) + [pcm[|pcm| - n..]]
  }

  lemma {:induction false} SplitFlatten(frames: seq<Frame>, n: nat)
    requires n > 0 && forall k | 0 <= k < |frames| :: |frames[k]| == n
    ensures Split(Flatten(frames), n) == frames
  {
    if frames != [] {
      var init, last := frames[..|frames| - 1], frames[|frames| - 1];
      SplitFlatten(init, n);
      var pcm := Flatten(frames);
      assert pcm[..|pcm| - n] == Flatten(init) && pcm[|pcm| - n..] == last;
      assert init + [last] == frames;
    }
  }

  // ---------------------------------------------------------------------------------
  // The round trip
  // ---------------------------------------------------------------------------------

  /** Where the pieces of a file lie. */
  lemma {:induction false} Layout(description: seq<byte>, riffSize: nat, dataSize: nat, pcm: seq<byte>)
    requires |description| == 16
    ensures var b := Image(description, riffSize, dataSize, pcm);
            && b[0..4] == RIFF && b[4..8] == LE32(riffSize) && b[8..16] == WAVE_FMT && b[16..20] == LE32(16)
            && b[20..36] == description
            && b[36..40] == DATA && b[40..44] == LE32(dataSize) && b[44..] == pcm
  {
  }

  lemma {:induction false} DescriptionLayout(code: nat, channels: nat, rate: nat, byteRate: nat, align: nat, bits: nat)
    ensures var d := Describe(code, channels, rate, byteRate, align, bits);
            && d[0..2] == LE16(code) && d[2..4] == LE16(channels) && d[4..8] == LE32(rate)
            && d[8..12] == LE32(byteRate) && d[12..14] == LE16(align) && d[14..16] == LE16(bits)
  {
    var d := Describe(code, channels, rate, byteRate, align, bits);
    assert d[0..2] == LE16(code);
    assert d[2..4] == LE16(channels);
    assert d[4..8] == LE32(rate);
    assert d[8..12] == LE32(byteRate);
    assert d[12..14] == LE16(align);
    assert d[14..16] == LE16(bits);
  }

  lemma {:induction false} DescriptionFields(code: nat, channels: nat, rate: nat, byteRate: nat, align: nat, bits: nat)
    requires code < TWO_16 && channels < TWO_16 && rate < TWO_32 && align < TWO_16 && bits < TWO_16
    ensures var d := Describe(code, channels, rate, byteRate, align, bits);
            && Number(d[0..2]) == code && Number(d[2..4]) == channels
            && Number(d[4..8]) == rate && Number(d[8..12]) == byteRate % TWO_32
            && Number(d[12..14]) == align && Number(d[14..16]) == bits
  {
    DescriptionLayout(code, channels, rate, byteRate, align, bits);
    FieldRoundTrip16(code);
    Fits(code, TWO_16);
    FieldRoundTrip16(channels);
    Fits(channels, TWO_16);
    FieldRoundTrip32(rate);
    Fits(rate, TWO_32);
    FieldRoundTrip32(byteRate);
    FieldRoundTrip16(align);
    Fits(align, TWO_16);
    FieldRoundTrip16(bits);
    Fits(bits, TWO_16);
  }

  /** Fields with the right numbers make the format. */
  lemma {:induction false} FieldsParse(d: seq<byte>, f: Format, byteRate: nat)
    requires |d| == 16 && Supported(f)
    requires Number(d[0..2]) == FormatCode(f.sample) && Number(d[2..4]) == f.channels
    requires Number(d[4..8]) == f.sampleRate && Number(d[8..12]) == byteRate
    requires Number(d[12..14]) == BlockAlign(f) && Number(d[14..16]) == SampleBytes(f.sample) * 8
    ensures ParseDescription(d) == Some((f, byteRate))
  {
  }

  /** The description reads back. */
  lemma {:induction false} DescriptionRoundTrip(f: Format)
    requires Supported(f)
    ensures ParseDescription(Description(f)) == Some((f, ByteRate(f) % TWO_32))
  {
    DescriptionFields(
      FormatCode(f.sample), f.channels, f.sampleRate, ByteRate(f), BlockAlign(f), SampleBytes(f.sample) * 8);
    FieldsParse(Description(f), f, ByteRate(f) % TWO_32);
  }

  /** Reading any file of this shape: it succeeds exactly when both sizes are right. */
  lemma {:induction false} ParseImage(description: seq<byte>, riffSize: nat, dataSize: nat, pcm: seq<byte>)
    requires |description| == 16 && ParseDescription(description).Some?
    ensures Parse(Image(description, riffSize, dataSize, pcm)) ==
            if riffSize % TWO_32 == 36 + |pcm| && dataSize % TWO_32 == |pcm|
            then Some(Contents(ParseDescription(description).value.0, ParseDescription(description).value.1, pcm))
            else None
  {
    Layout(description, riffSize, dataSize, pcm);
    FieldRoundTrip32(riffSize);
    FieldRoundTrip32(dataSize);
    FieldRoundTrip32(16);
  }

  /** A recording, whatever bytes describe its format. */
  lemma {:induction false} ParseRecording(
    description: seq<byte>, f: Format, byteRate: nat, frames: seq<Frame>, frameBytes: nat, file: seq<byte>)
    requires |description| == 16 && ParseDescription(description) == Some((f, byteRate))
    requires frameBytes > 0 && forall k | 0 <= k < |frames| :: |frames[k]| == frameBytes
    requires file == Image(description, 36 + |Flatten(frames)|, |Flatten(frames)|, Flatten(frames))
    ensures ReadsAs(file, f, byteRate, frames, frameBytes)
  {
    var n := |Flatten(frames)|;
    Fits(36 + n, TWO_32);
    Fits(n, TWO_32);
    ParseImage(description, 36 + n, n, Flatten(frames));
    SplitFlatten(frames, frameBytes);
  }

  /** The file reads back as the format and exactly the frames if, and only if, its size
      fits the 32-bit fields. */
  predicate ReadsAs(file: seq<byte>, f: Format, byteRate: nat, frames: seq<Frame>, frameBytes: nat)
    requires frameBytes > 0
  {
    var read := Parse(file);
    && (read.Some? <==> 36 + |Flatten(frames)| < TWO_32)
    && (read.Some? ==>
          && read.value.format == f
          && read.value.byteRate == byteRate
          && Split(read.value.pcm, frameBytes) == frames)
  }

  /** A recording reads back as what was recorded. The byte-rate field is cut to 32 bits. */
  lemma {:induction false} RecordingRoundTrip(f: Format, frames: seq<Frame>, frameBytes: nat)
    requires Supported(f) && frameBytes > 0
    requires forall k | 0 <= k < |frames| :: |frames[k]| == frameBytes
    ensures ReadsAs(Recording(f, frames), f, ByteRate(f) % TWO_32, frames, frameBytes)
  {
    DescriptionRoundTrip(f);
    ParseRecording(Description(f), f, ByteRate(f) % TWO_32, frames, frameBytes, Recording(f, frames));
  }

  /** The byte-rate field is the true rate exactly when that fits 32 bits. */
  lemma {:induction false} ByteRateExact(f: Format)
    ensures ByteRate(f) == f.sampleRate * BlockAlign(f)
    ensures ByteRate(f) % TWO_32 == f.sampleRate * BlockAlign(f) <==> f.sampleRate * BlockAlign(f) < TWO_32
  {
    TimesIsProduct(f.sampleRate, BlockAlign(f));
    Fits(ByteRate(f), TWO_32);
  }
}
