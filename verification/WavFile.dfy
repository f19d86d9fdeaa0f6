/** Writing the recording: the file as the example program writes and then patches it. */
module WavFile {
  import opened Bytes
  import opened Wav

  // ---------------------------------------------------------------------------------
  // Bytes at a position
  // ---------------------------------------------------------------------------------

  /** A file after `bytes` have been written at `pos`, over what was there and beyond. */
  function Splice(data: seq<byte>, pos: nat, bytes: seq<byte>): seq<byte>
    requires pos <= |data|
  {
    data[..pos] + bytes + (if pos + |bytes| < |data| then data[pos + |bytes|..] else [])
  }

  lemma {:induction false} SpliceTwice(data: seq<byte>, pos: nat, a: seq<byte>, b: seq<byte>)
    requires pos <= |data|
    ensures pos + |a| <= |Splice(data, pos, a)|
    ensures Splice(Splice(data, pos, a), pos + |a|, b) == Splice(data, pos, a + b)
  {
  }

  lemma {:induction false} SpliceAtEnd(data: seq<byte>, bytes: seq<byte>)
    ensures Splice(data, |data|, bytes) == data + bytes
  {
  }

  /** The bytes that shifting and masking produce. */
  lemma {:induction false} ShiftedBytes(v: nat)
    ensures LE16(v) == [v % 256] + [v / 256 % 256]
    ensures LE32(v) == [v % 256] + [v / 256 % 256] + [v / 0x1_0000 % 256] + [v / 0x100_0000 % 256]
  {
    assert v / 0x1_0000 == v / 256 / 256 && v / 0x100_0000 == v / 256 / 256 / 256;
    assert LE(v / 256 / 256 / 256, 1) == [v / 256 / 256 / 256 % 256] + LE(v / 256 / 256 / 256 / 256, 0);
    assert LE(v / 256 / 256, 2) == [v / 256 / 256 % 256] + LE(v / 256 / 256 / 256, 1);
    assert LE(v / 256, 3) == [v / 256 % 256] + LE(v / 256 / 256, 2);
    assert LE(v / 256, 1) == [v / 256 % 256] + LE(v / 256 / 256, 0);
  }

  /** A field only ever holds the low bytes. */
  lemma {:induction false} LowBytes(v: nat, n: nat)
    requires n <= 4
    ensures LE(v % Range(n), n) == LE(v, n)
  {
    if n > 0 {
      RangeValue(n);
      RangeValue(n - 1);
      RemainderSplit(v, n);
      var low := v % Range(n);
      assert low % 256 == v % 256 && low / 256 == v / 256 % Range(n - 1);
      LowBytes(v / 256, n - 1);
    }
  }

  lemma {:induction false} Regroup(
    x: seq<byte>, a: seq<byte>, b: seq<byte>, c: seq<byte>, d: seq<byte>, e: seq<byte>, f: seq<byte>)
    ensures x + a + b + c + d + e + f == x + (a + b + c + d + e + f)
  {
  }

  lemma {:induction false} HeaderPieces(description: seq<byte>)
    requires |description| == 16
    ensures [] + RIFF + LE32(0) + WAVE_FMT + LE32(16) + description + DATA + LE32(0) == Image(description, 0, 0, [])
  {
    assert [] + RIFF == RIFF;
  }

  /** The byte rate, computed in 32 bits. */
  method ByteRateField(f: Format) returns (value: nat)
    ensures value < TWO_32 && LE32(value) == LE32(ByteRate(f))
  {
    TimesIsProduct(f.sampleRate, BlockAlign(f));
    RangeValue(4);
    LowBytes(ByteRate(f), 4);
    value := (f.sampleRate * BlockAlign(f)) % TWO_32;
  }

  class File {
    var data: seq<byte>
    var pos: nat

    ghost predicate Valid()
      reads this
    {
      pos <= |data|
    }

    /** A file opened for writing is empty. */
    constructor ()
      ensures Valid() && data == [] && pos == 0
    {
      data, pos := [], 0;
    }

    method Write(bytes: seq<byte>)
      requires Valid()
      modifies this
      ensures Valid() && data == Splice(old(data), old(pos), bytes) && pos == old(pos) + |bytes|
    {
      data := Splice(data, pos, bytes);
      pos := pos + |bytes|;
    }

    method PutByte(b: byte)
      requires Valid()
      modifies this
      ensures Valid() && data == Splice(old(data), old(pos), [b]) && pos == old(pos) + 1
    {
      Write([b]);
    }

    method PutU16(value: nat)
      requires Valid()
      modifies this
      ensures Valid() && data == Splice(old(data), old(pos), LE16(value)) && pos == old(pos) + 2
    {
      ghost var d, p := data, pos;
      ShiftedBytes(value);
      PutByte(value % 256);
      PutByte(value / 256 % 256);
      SpliceTwice(d, p, [value % 256], [value / 256 % 256]);
    }

    method PutU32(value: nat)
      requires Valid()
      modifies this
      ensures Valid() && data == Splice(old(data), old(pos), LE32(value)) && pos == old(pos) + 4
    {
      ghost var d, p := data, pos;
      var b0, b1, b2, b3 := value % 256, value / 256 % 256, value / 0x1_0000 % 256, value / 0x100_0000 % 256;
      ShiftedBytes(value);
      PutByte(b0);
      PutByte(b1);
      SpliceTwice(d, p, [b0], [b1]);
      PutByte(b2);
      SpliceTwice(d, p, [b0] + [b1], [b2]);
      PutByte(b3);
      SpliceTwice(d, p, [b0] + [b1] + [b2], [b3]);
    }

    method Seek(to: nat)
      requires Valid() && to <= |data|
      modifies this`pos
      ensures Valid() && pos == to
    {
      pos := to;
    }

    /** The header, with both sizes still to be filled in. */
    method WriteHeader(f: Format)
      requires Valid() && data == [] && pos == 0 && Supported(f)
      modifies this
      ensures Valid() && data == Image(Description(f), 0, 0, []) && pos == |data|
    {
      Append(RIFF);
      AppendU32(0);
      Append(WAVE_FMT);
      AppendU32(16);
      WriteDescription(f);
      Append(DATA);
      AppendU32(0);
      HeaderPieces(Description(f));
    }

    method WriteDescription(f: Format)
      requires Valid() && pos == |data|
      modifies this
      ensures Valid() && pos == |data| && data == old(data) + Description(f)
    {
      var byteRate := ByteRateField(f);
      AppendU16(FormatCode(f.sample));
      AppendU16(f.channels);
      AppendU32(f.sampleRate);
      AppendU32(byteRate);
      AppendU16(BlockAlign(f));
      AppendU16(SampleBytes(f.sample) * 8);
      Regroup(old(data), LE16(FormatCode(f.sample)), LE16(f.channels), LE32(f.sampleRate), LE32(byteRate),
              LE16(BlockAlign(f)), LE16(SampleBytes(f.sample) * 8));
    }

    method Append(bytes: seq<byte>)
      requires Valid() && pos == |data|
      modifies this
      ensures Valid() && pos == |data| && data == old(data) + bytes
    {
      SpliceAtEnd(data, bytes);
      Write(bytes);
    }

    method AppendU16(value: nat)
      requires Valid() && pos == |data|
      modifies this
      ensures Valid() && pos == |data| && data == old(data) + LE16(value)
    {
      SpliceAtEnd(data, LE16(value));
      PutU16(value);
    }

    method AppendU32(value: nat)
      requires Valid() && pos == |data|
      modifies this
      ensures Valid() && pos == |data| && data == old(data) + LE32(value)
    {
      SpliceAtEnd(data, LE32(value));
      PutU32(value);
    }

    /** Every frame that was delivered, one after the other. */
    method WriteFrames(frames: seq<Frame>)
      requires Valid() && pos == |data|
      modifies this
      ensures Valid() && pos == |data| && data == old(data) + Flatten(frames)
    {
      ghost var before := data;
      for i := 0 to |frames|
        invariant Valid() && pos == |data|
        invariant data == before + Flatten(frames[..i])
      {
        assert frames[..i + 1][..i] == frames[..i];
        Append(frames[i]);
        assert data == before + (Flatten(frames[..i]) + frames[i]);
      }
      assert frames[..|frames|] == frames;
    }

    /** Fill in the two sizes, now that the length is known. */
    method Patch(ghost description: seq<byte>, ghost pcm: seq<byte>, dataOffset: nat)
      requires Valid() && |description| == 16 && dataOffset == HEADER
      requires data == Image(description, 0, 0, pcm) && pos == |data|
      modifies this
      ensures Valid() && data == Image(description, 36 + |pcm|, |pcm|, pcm)
    {
      var dataBytes := (pos - dataOffset) % TWO_32;
      Seek(4);
      PutU32((36 + dataBytes) % TWO_32);
      PatchRiff(description, 0, (36 + dataBytes) % TWO_32, 0, pcm);
      Seek(dataOffset - 4);
      PutU32(dataBytes);
      PatchData(description, (36 + dataBytes) % TWO_32, 0, dataBytes, pcm);
      SizesAreLow(|pcm|);
    }

    /** The recording. */
    method Record(f: Format, frames: seq<Frame>)
      requires Valid() && data == [] && pos == 0 && Supported(f)
      modifies this
      ensures Valid() && data == Recording(f, frames)
    {
      WriteHeader(f);
      var dataOffset := pos;
      WriteFrames(frames);
      assert data == Image(Description(f), 0, 0, Flatten(frames)) by {
        HeaderAndFrames(Description(f), 0, 0, Flatten(frames));
      }
      Patch(Description(f), Flatten(frames), dataOffset);
    }
  }

  lemma {:induction false} HeaderAndFrames(description: seq<byte>, riffSize: nat, dataSize: nat, pcm: seq<byte>)
    requires |description| == 16
    ensures Image(description, riffSize, dataSize, []) + pcm == Image(description, riffSize, dataSize, pcm)
  {
  }

  /** The first patch changes the first size and nothing else. */
  lemma {:induction false} PatchRiff(description: seq<byte>, r: nat, r': nat, d: nat, pcm: seq<byte>)
    requires |description| == 16
    ensures Splice(Image(description, r, d, pcm), 4, LE32(r')) == Image(description, r', d, pcm)
  {
    var rest := WAVE_FMT + LE32(16) + description + DATA + LE32(d) + pcm;
    assert Image(description, r, d, pcm) == RIFF + LE32(r) + rest;
    assert Image(description, r', d, pcm) == RIFF + LE32(r') + rest;
  }

  /** The second patch changes the second size and nothing else. */
  lemma {:induction false} PatchData(description: seq<byte>, r: nat, d: nat, d': nat, pcm: seq<byte>)
    requires |description| == 16
    ensures Splice(Image(description, r, d, pcm), 40, LE32(d')) == Image(description, r, d', pcm)
  {
    var front := RIFF + LE32(r) + WAVE_FMT + LE32(16) + description + DATA;
    assert Image(description, r, d, pcm) == front + LE32(d) + pcm;
    assert Image(description, r, d', pcm) == front + LE32(d') + pcm;
  }

  /** The sizes, computed in 32 bits, are the low bytes of the true ones. */
  lemma {:induction false} SizesAreLow(n: nat)
    ensures LE32((36 + n % TWO_32) % TWO_32) == LE32(36 + n) && LE32(n % TWO_32) == LE32(n)
  {
    RangeValue(4);
    LowBytes(n, 4);
    LowBytes(36 + n, 4);
    SumOfLow(n);
  }

  lemma {:induction false} SumOfLow(n: nat)
    ensures (36 + n % TWO_32) % TWO_32 == (36 + n) % TWO_32
  {
  }

  lemma {:induction false} SizesOnly(description: seq<byte>, r: nat, d: nat, r': nat, d': nat, pcm: seq<byte>)
    requires |description| == 16
    ensures var a, b := Image(description, r, d, pcm), Image(description, r', d', pcm);
            a[..4] == b[..4] && a[8..40] == b[8..40] && a[44..] == b[44..]
  {
    var middle := WAVE_FMT + LE32(16) + description + DATA;
    assert Image(description, r, d, pcm) == RIFF + LE32(r) + middle + LE32(d) + pcm;
    assert Image(description, r', d', pcm) == RIFF + LE32(r') + middle + LE32(d') + pcm;
  }

  // ---------------------------------------------------------------------------------
  // The finished file, byte by byte
  // ---------------------------------------------------------------------------------

  function Ascii(text: string): seq<byte>
    requires forall i | 0 <= i < |text| :: text[i] as int < 256
  {
    seq(|text|, i requires 0 <= i < |text| => text[i] as int)
  }

  lemma {:induction false} TagsAreText()
    ensures RIFF == Ascii("RIFF") && WAVE_FMT == Ascii("WAVEfmt ") && DATA == Ascii("data")
  {
  }

  /** Two bytes at `at` are those of v, the least first. */
  predicate Holds16(b: seq<byte>, at: nat, v: nat) {
    at + 2 <= |b| && b[at] == v % 256 && b[at + 1] == v / 256 % 256
  }

  predicate Holds32(b: seq<byte>, at: nat, v: nat) {
    at + 4 <= |b| && b[at] == v % 256 && b[at + 1] == v / 256 % 256
    && b[at + 2] == v / 65_536 % 256 && b[at + 3] == v / 16_777_216 % 256
  }

  lemma {:induction false} Field16(b: seq<byte>, at: nat, v: nat)
    requires at + 2 <= |b| && b[at..at + 2] == LE16(v)
    ensures Holds16(b, at, v)
  {
    ShiftedBytes(v);
    assert b[at] == b[at..at + 2][0] && b[at + 1] == b[at..at + 2][1];
  }

  lemma {:induction false} Field32(b: seq<byte>, at: nat, v: nat)
    requires at + 4 <= |b| && b[at..at + 4] == LE32(v)
    ensures Holds32(b, at, v)
  {
    ShiftedBytes(v);
    var field := b[at..at + 4];
    assert b[at] == field[0] && b[at + 1] == field[1] && b[at + 2] == field[2] && b[at + 3] == field[3];
  }

  /** The frame around the description: tags as text, sizes as the layout prescribes. */
  lemma {:induction false} OuterBytes(description: seq<byte>, riffSize: nat, dataSize: nat, pcm: seq<byte>)
    requires |description| == 16
    ensures var b := Image(description, riffSize, dataSize, pcm);
            && b[0..4] == Ascii("RIFF") && Holds32(b, 4, riffSize)
            && b[8..16] == Ascii("WAVEfmt ") && Holds32(b, 16, 16)
            && b[20..36] == description
            && b[36..40] == Ascii("data") && Holds32(b, 40, dataSize) && b[44..] == pcm
  {
    var b := Image(description, riffSize, dataSize, pcm);
    TagsAreText();
    Layout(description, riffSize, dataSize, pcm);
    Field32(b, 4, riffSize);
    Field32(b, 16, 16);
    Field32(b, 40, dataSize);
  }

  /** The description: code 3 for floats and 1 for integers, channels, rate, bytes a second,
      bytes a block, bits a sample. */
  lemma {:induction false} DescriptionBytes(f: Format)
    ensures var d, width := Description(f), if f.sample.S16LE? then 2 else 4;
            && Holds16(d, 0, if f.sample.F32LE? then 3 else 1) && Holds16(d, 2, f.channels)
            && Holds32(d, 4, f.sampleRate) && Holds32(d, 8, f.sampleRate * (f.channels * width))
            && Holds16(d, 12, f.channels * width) && Holds16(d, 14, width * 8)
  {
    var d := Description(f);
    DescriptionLayout(
      FormatCode(f.sample), f.channels, f.sampleRate, ByteRate(f), BlockAlign(f), SampleBytes(f.sample) * 8);
    TimesIsProduct(f.sampleRate, BlockAlign(f));
    Field16(d, 0, FormatCode(f.sample));
    Field16(d, 2, f.channels);
    Field32(d, 4, f.sampleRate);
    Field32(d, 8, ByteRate(f));
    Field16(d, 12, BlockAlign(f));
    Field16(d, 14, SampleBytes(f.sample) * 8);
  }

  /** What the patches leave alone. */
  lemma {:induction false} PatchesTouchSizesOnly(f: Format, frames: seq<Frame>)
    ensures var draft := Image(Description(f), 0, 0, Flatten(frames));
            var final := Recording(f, frames);
            && |final| == |draft|
            && final[..4] == draft[..4] && final[8..40] == draft[8..40] && final[44..] == draft[44..]
  {
    var n := |Flatten(frames)|;
    SizesOnly(Description(f), 36 + n, n, 0, 0, Flatten(frames));
  }
}
