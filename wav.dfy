/** The recording path of microphone.js: the captured chunks of each channel
    are merged, the two channels interleaved, and the result written as a
    16-bit stereo PCM WAVE file through a little-endian DataView. */
module Wav {
  import opened Wrappers
  import opened Dsp
  import opened Autocorrelation

  /** A byte of the ArrayBuffer behind the DataView. */
  newtype byte = x: int | 0 <= x < 256

  const HEADER_LEN: nat := 44
  /** Scale from a [-1, 1] float sample to a 16-bit integer. */
  const SAMPLE_SCALE: real := 32767.0

  // ---------------------------------------------------------------------------
  // Typed-array and DataView stores

  /** `s` with `values` written over it from `offset` on. */
  function Splice<T>(s: seq<T>, offset: nat, values: seq<T>): (r: seq<T>)
    requires offset + |values| <= |s|
  {
    s[..offset] + values + s[offset + |values|..]
  }

  /** Two stores that meet end to end are one store of both. */
  lemma SpliceAdjacent<T>(s: seq<T>, offset: nat, a: seq<T>, b: seq<T>)
    requires offset + |a| + |b| <= |s|
    ensures Splice(Splice(s, offset, a), offset + |a|, b) == Splice(s, offset, a + b)
  {
  }

  /** A store over exactly the middle part replaces that part. */
  lemma SpliceMiddle<T>(a: seq<T>, b: seq<T>, c: seq<T>, d: seq<T>)
    requires |b| == |c|
    ensures Splice(a + b + d, |a|, c) == a + c + d
  {
    assert (a + b + d)[..|a|] == a;
    assert (a + b + d)[|a| + |c|..] == d;
  }

  /** Two adjacent stores that cover the whole sequence replace it. */
  lemma SpliceWhole<T>(s: seq<T>, a: seq<T>, b: seq<T>)
    requires |a| + |b| == |s|
    ensures Splice(Splice(s, 0, a), |a|, b) == a + b
  {
    SpliceAdjacent(s, 0, a, b);
  }

  /** Overwrites the elements of `dst` from `offset` on with `values`, as
      TypedArray.set and the DataView setters do. */
  method Store<T>(dst: array<T>, offset: nat, values: seq<T>)
    requires offset + |values| <= dst.Length
    modifies dst
    ensures dst[..] == Splice(old(dst[..]), offset, values)
  {
    for j := 0 to |values|
      invariant forall k :: 0 <= k < dst.Length ==>
        dst[k] == if offset <= k < offset + j then values[k - offset] else old(dst[k])
    {
      dst[offset + j] := values[j];
    }
    assert dst[..] == Splice(old(dst[..]), offset, values);
  }

  // ---------------------------------------------------------------------------
  // mergeBuffers

  /** The chunks of one channel, one after the other. */
  function Concat(chunks: seq<seq<real>>): seq<real>
  {
    if |chunks| == 0 then [] else Concat(chunks[..|chunks| - 1]) + chunks[|chunks| - 1]
  }

  /** Concatenating equally long chunks gives size samples per chunk. */
  lemma {:induction false} ConcatUniformLength(chunks: seq<seq<real>>, size: nat)
    requires forall k :: 0 <= k < |chunks| ==> |chunks[k]| == size
    ensures |Concat(chunks)| == |chunks| * size
  {
    if |chunks| > 0 {
      ConcatUniformLength(chunks[..|chunks| - 1], size);
    }
  }

  /** Concatenating equally long chunks places sample j of chunk k at
      k * size + j. */
  lemma {:induction false} ConcatUniform(chunks: seq<seq<real>>, size: nat, k: nat, j: nat)
    requires forall c :: 0 <= c < |chunks| ==> |chunks[c]| == size
    requires k < |chunks| && j < size
    ensures k * size + j < |Concat(chunks)|
    ensures Concat(chunks)[k * size + j] == chunks[k][j]
  {
    var last := |chunks| - 1;
    var init := chunks[..last];
    ConcatUniformLength(init, size);
    if k < last {
      ConcatUniform(init, size, k, j);
    } else {
      assert k * size + j == |Concat(init)| + j;
    }
  }

  /** A prefix of the chunk list never merges to more samples than the whole. */
  lemma {:induction false} ConcatPrefixLength(chunks: seq<seq<real>>, i: nat)
    requires i <= |chunks|
    ensures |Concat(chunks[..i])| <= |Concat(chunks)|
    decreases |chunks|
  {
    if i < |chunks| {
      var init := chunks[..|chunks| - 1];
      assert chunks[..i] == init[..i];
      ConcatPrefixLength(init, i);
    } else {
      assert chunks[..i] == chunks;
    }
  }

  /** Storing a chunk at the start of the zero tail extends the merged prefix. */
  lemma StoreIntoZeros(merged: seq<real>, buffer: seq<real>, rest: nat)
    requires |buffer| <= rest
    ensures Splice(merged + Zeros(rest), |merged|, buffer) == merged + buffer + Zeros(rest - |buffer|)
  {
  }

  /** Copies the chunks one after the other into a new buffer of
      `recordingLength` samples; a chunk that would run past the end is a
      range error. */
  method MergeBuffers(chunks: seq<seq<real>>, recordingLength: nat) returns (r: Result<array<real>, string>)
    ensures r.Failure? <==> |Concat(chunks)| > recordingLength
    ensures r.Success? ==>
      fresh(r.value) && r.value[..] == Concat(chunks) + Zeros(recordingLength - |Concat(chunks)|)
  {
    var result := new real[recordingLength](_ => 0.0);
    var offset := 0;
    for i := 0 to |chunks|
      invariant offset == |Concat(chunks[..i])| <= recordingLength
      invariant result[..] == Concat(chunks[..i]) + Zeros(recordingLength - offset)
    {
      assert chunks[..i + 1][..i] == chunks[..i];
      var buffer := chunks[i];
      if offset + |buffer| > recordingLength {
        ConcatPrefixLength(chunks, i + 1);
        return Failure("RangeError: offset is out of bounds");
      }
      StoreIntoZeros(Concat(chunks[..i]), buffer, recordingLength - offset);
      Store(result, offset, buffer);
      offset := offset + |buffer|;
    }
    assert chunks[..|chunks|] == chunks;
    r := Success(result);
  }

  // ---------------------------------------------------------------------------
  // interleave (the microphone's own copy)

  /** Alternates the samples of two channels of equal length into a new
      buffer of their combined length. */
  method InterleaveChannels(left: array<real>, right: array<real>) returns (result: array<real>)
    requires left.Length == right.Length
    ensures fresh(result)
    ensures result[..] == Interleaved(left[..], right[..])
  {
    var length := left.Length + right.Length;
    result := new real[length](_ => 0.0);
    var index := 0;
    var inputIndex := 0;
    while index < length
      invariant index == 2 * inputIndex <= length
      invariant forall j :: 0 <= j < inputIndex ==> result[2 * j] == left[j] && result[2 * j + 1] == right[j]
    {
      result[index] := left[inputIndex];
      index := index + 1;
      result[index] := right[inputIndex];
      index := index + 1;
      inputIndex := inputIndex + 1;
    }
    InterleavedEqual(result[..], left[..], right[..]);
  }

  // ---------------------------------------------------------------------------
  // Little-endian fields, as DataView writes them

  /** setUint8: the low eight bits of `v`. */
  function Byte(v: int): byte
  {
    (v % 256) as byte
  }

  /** setUint16(offset, v, true): `v` modulo 2^16, low byte first. */
  function LE16(v: int): seq<byte>
  {
    var u := v % 0x1_0000;
    [Byte(u), Byte(u / 0x100)]
  }

  /** setUint32(offset, v, true): `v` modulo 2^32, low half first. */
  function LE32(v: int): seq<byte>
  {
    var u := v % 0x1_0000_0000;
    LE16(u % 0x1_0000) + LE16(u / 0x1_0000)
  }

  /** getUint16(offset, true). */
  function ReadUint16(b: seq<byte>, offset: nat): nat
    requires offset + 2 <= |b|
  {
    b[offset] as nat + 0x100 * b[offset + 1] as nat
  }

  /** getUint32(offset, true). */
  function ReadUint32(b: seq<byte>, offset: nat): nat
    requires offset + 4 <= |b|
  {
    ReadUint16(b, offset) + 0x1_0000 * ReadUint16(b, offset + 2)
  }

  /** Reading a 16-bit field back gives the value written modulo 2^16. */
  lemma ReadLE16(v: int)
    ensures ReadUint16(LE16(v), 0) == v % 0x1_0000
  {
  }

  /** Reading a 32-bit field back gives the value written modulo 2^32. */
  lemma ReadLE32(v: int)
    ensures ReadUint32(LE32(v), 0) == v % 0x1_0000_0000
  {
    var u := v % 0x1_0000_0000;
    ReadLE16(u % 0x1_0000);
    ReadLE16(u / 0x1_0000);
    assert LE32(v)[2..] == LE16(u / 0x1_0000);
  }

  lemma ReadPrefix16(s: seq<byte>, post: seq<byte>, offset: nat)
    requires offset + 2 <= |s|
    ensures ReadUint16(s + post, offset) == ReadUint16(s, offset)
  {
  }

  lemma ReadPrefix32(s: seq<byte>, post: seq<byte>, offset: nat)
    requires offset + 4 <= |s|
    ensures ReadUint32(s + post, offset) == ReadUint32(s, offset)
  {
  }

  lemma ReadSkip16(pre: seq<byte>, s: seq<byte>, offset: nat)
    requires offset + 2 <= |s|
    ensures ReadUint16(pre + s, |pre| + offset) == ReadUint16(s, offset)
  {
  }

  lemma ReadSkip32(pre: seq<byte>, s: seq<byte>, offset: nat)
    requires offset + 4 <= |s|
    ensures ReadUint32(pre + s, |pre| + offset) == ReadUint32(s, offset)
  {
  }

  /** A 16-bit pattern read as two's complement (getInt16). */
  function AsInt16(u: nat): int
  {
    if u >= 0x8000 then u - 0x1_0000 else u
  }

  // ---------------------------------------------------------------------------
  // Sample quantisation

  /** JavaScript's conversion of a number to an integer: toward zero. */
  function Trunc(x: real): (n: int)
    ensures 0.0 <= x ==> n as real <= x < n as real + 1.0
    ensures x < 0.0 ==> n as real - 1.0 < x <= n as real
  {
    if x >= 0.0 then x.Floor else -((-x).Floor)
  }

  /** setInt16(offset, x * 0x7FFF, true): the scaled sample truncated toward
      zero, kept modulo 2^16 and stored low byte first. */
  function SampleBytes(x: real): seq<byte>
  {
    LE16(Trunc(x * SAMPLE_SCALE))
  }

  /** A sample in [-1, 1] reads back from its two bytes as the truncated
      scaled value, which is within one quantisation step of the sample. */
  lemma SampleRoundTrip(x: real)
    requires -1.0 <= x <= 1.0
    ensures AsInt16(ReadUint16(SampleBytes(x), 0)) == Trunc(x * SAMPLE_SCALE)
    ensures -1.0 < Trunc(x * SAMPLE_SCALE) as real - x * SAMPLE_SCALE < 1.0
  {
    var n := Trunc(x * SAMPLE_SCALE);
    ReadLE16(n);
    assert -32767 <= n <= 32767;
    if n < 0 {
      assert n % 0x1_0000 == n + 0x1_0000;
    }
  }

  /** The PCM data of a buffer of samples, two bytes per sample in order. */
  function PcmData(samples: seq<real>): (b: seq<byte>)
    ensures |b| == 2 * |samples|
  {
    if |samples| == 0 then []
    else PcmData(samples[..|samples| - 1]) + SampleBytes(samples[|samples| - 1])
  }

  /** Encoding one more sample appends its two bytes. */
  lemma PcmDataSnoc(samples: seq<real>, i: nat)
    requires i < |samples|
    ensures PcmData(samples[..i + 1]) == PcmData(samples[..i]) + SampleBytes(samples[i])
  {
    assert samples[..i + 1][..i] == samples[..i];
  }

  /** Sample i occupies bytes 2i and 2i + 1 of the PCM data. */
  lemma {:induction false} PcmDataLayout(samples: seq<real>, i: nat)
    requires i < |samples|
    ensures PcmData(samples)[2 * i..2 * i + 2] == SampleBytes(samples[i])
  {
    var init := samples[..|samples| - 1];
    if i < |samples| - 1 {
      PcmDataLayout(init, i);
      assert PcmData(samples)[2 * i..2 * i + 2] == PcmData(init)[2 * i..2 * i + 2];
      assert samples[i] == init[i];
    }
  }

  // ---------------------------------------------------------------------------
  // The header

  /** The fields of the "fmt " sub-chunk. */
  datatype WaveFormat = WaveFormat(
    chunkSize: int, audioFormat: int, channels: int, sampleRate: int,
    byteRate: int, blockAlign: int, bitsPerSample: int)

  /** The fields of the 44-byte header. */
  datatype WavHeader = WavHeader(riffSize: int, format: WaveFormat, dataSize: int)

  /** The format microphone.js writes: 16-byte PCM format chunk, two channels,
      44100 Hz, 16 bits per sample. */
  const RECORDING_FORMAT: WaveFormat := WaveFormat(16, 1, 2, SAMPLE_RATE, SAMPLE_RATE * 4, 4, 16)

  /** Every field fits its 16- or 32-bit slot. */
  predicate FitsFields(h: WavHeader)
  {
    0 <= h.riffSize < 0x1_0000_0000 && 0 <= h.dataSize < 0x1_0000_0000
    && 0 <= h.format.chunkSize < 0x1_0000_0000 && 0 <= h.format.sampleRate < 0x1_0000_0000
    && 0 <= h.format.byteRate < 0x1_0000_0000
    && 0 <= h.format.audioFormat < 0x1_0000 && 0 <= h.format.channels < 0x1_0000
    && 0 <= h.format.blockAlign < 0x1_0000 && 0 <= h.format.bitsPerSample < 0x1_0000
  }

  /** An ASCII tag as writeUTFBytes stores it: one setUint8 per UTF-16 code
      unit. */
  function Ascii(s: string): seq<byte>
  {
    seq(|s|, i requires 0 <= i < |s| => Byte(s[i] as int))
  }

  /** The RIFF chunk descriptor: tag, chunk size, format "WAVE". */
  function RiffDescriptor(riffSize: int): seq<byte>
  {
    Ascii("RIFF") + LE32(riffSize) + Ascii("WAVE")
  }

  /** The first half of the "fmt " sub-chunk: tag, size, format, channels. */
  function FmtLayout(f: WaveFormat): seq<byte>
  {
    Ascii("fmt ") + LE32(f.chunkSize) + LE16(f.audioFormat) + LE16(f.channels)
  }

  /** The second half of the "fmt " sub-chunk: the rates and sample size. */
  function FmtRates(f: WaveFormat): seq<byte>
  {
    LE32(f.sampleRate) + LE32(f.byteRate) + LE16(f.blockAlign) + LE16(f.bitsPerSample)
  }

  function FmtSubchunk(f: WaveFormat): seq<byte>
  {
    FmtLayout(f) + FmtRates(f)
  }

  /** The header of the "data" sub-chunk: tag and byte count. */
  function DataSubchunkHeader(dataSize: int): seq<byte>
  {
    Ascii("data") + LE32(dataSize)
  }

  function EncodeHeader(h: WavHeader): (b: seq<byte>)
    ensures |b| == HEADER_LEN
  {
    RiffDescriptor(h.riffSize) + FmtSubchunk(h.format) + DataSubchunkHeader(h.dataSize)
  }

  /** The header fields read back from the first 44 bytes of a file. */
  function DecodeHeader(b: seq<byte>): WavHeader
    requires HEADER_LEN <= |b|
  {
    WavHeader(ReadUint32(b, 4),
      WaveFormat(ReadUint32(b, 16), ReadUint16(b, 20), ReadUint16(b, 22),
        ReadUint32(b, 24), ReadUint32(b, 28), ReadUint16(b, 32), ReadUint16(b, 34)),
      ReadUint32(b, 40))
  }

  lemma RiffSizeRoundTrip(h: WavHeader, rest: seq<byte>)
    ensures ReadUint32(EncodeHeader(h) + rest, 4) == h.riffSize % 0x1_0000_0000
  {
    var r := RiffDescriptor(h.riffSize);
    ReadPrefix32(EncodeHeader(h), rest, 4);
    ReadPrefix32(r + FmtSubchunk(h.format), DataSubchunkHeader(h.dataSize), 4);
    ReadPrefix32(r, FmtSubchunk(h.format), 4);
    ReadPrefix32(Ascii("RIFF") + LE32(h.riffSize), Ascii("WAVE"), 4);
    ReadSkip32(Ascii("RIFF"), LE32(h.riffSize), 0);
    ReadLE32(h.riffSize);
  }

  lemma DataSizeRoundTrip(h: WavHeader, rest: seq<byte>)
    ensures ReadUint32(EncodeHeader(h) + rest, 40) == h.dataSize % 0x1_0000_0000
  {
    ReadPrefix32(EncodeHeader(h), rest, 40);
    ReadSkip32(RiffDescriptor(h.riffSize) + FmtSubchunk(h.format), DataSubchunkHeader(h.dataSize), 4);
    ReadSkip32(Ascii("data"), LE32(h.dataSize), 0);
    ReadLE32(h.dataSize);
  }

  /** Reading the first half of the format chunk back from a file. */
  lemma FmtLayoutRoundTrip(h: WavHeader, rest: seq<byte>)
    ensures ReadUint32(EncodeHeader(h) + rest, 16) == h.format.chunkSize % 0x1_0000_0000
    ensures ReadUint16(EncodeHeader(h) + rest, 20) == h.format.audioFormat % 0x1_0000
    ensures ReadUint16(EncodeHeader(h) + rest, 22) == h.format.channels % 0x1_0000
  {
    var f := h.format;
    var r := RiffDescriptor(h.riffSize);
    var l := FmtLayout(f);
    var w := EncodeHeader(h) + rest;
    assert w == r + (l + (FmtRates(f) + DataSubchunkHeader(h.dataSize) + rest));
    var tail := FmtRates(f) + DataSubchunkHeader(h.dataSize) + rest;
    ReadSkip32(r, l + tail, 4);
    ReadSkip16(r, l + tail, 8);
    ReadSkip16(r, l + tail, 10);
    ReadPrefix32(l, tail, 4);
    ReadPrefix16(l, tail, 8);
    ReadPrefix16(l, tail, 10);
    FmtLayoutFields(f);
  }

  lemma FmtLayoutFields(f: WaveFormat)
    ensures ReadUint32(FmtLayout(f), 4) == f.chunkSize % 0x1_0000_0000
    ensures ReadUint16(FmtLayout(f), 8) == f.audioFormat % 0x1_0000
    ensures ReadUint16(FmtLayout(f), 10) == f.channels % 0x1_0000
  {
    var a := Ascii("fmt ");
    var s1 := a + LE32(f.chunkSize);
    var s2 := s1 + LE16(f.audioFormat);
    ReadLE32(f.chunkSize);
    ReadLE16(f.audioFormat);
    ReadLE16(f.channels);
    ReadSkip16(s2, LE16(f.channels), 0);
    ReadSkip16(s1, LE16(f.audioFormat), 0);
    ReadPrefix16(s2, LE16(f.channels), 8);
    ReadSkip32(a, LE32(f.chunkSize), 0);
    ReadPrefix32(s1, LE16(f.audioFormat), 4);
    ReadPrefix32(s2, LE16(f.channels), 4);
  }

  /** Reading the second half of the format chunk back from a file. */
  lemma FmtRatesRoundTrip(h: WavHeader, rest: seq<byte>)
    ensures ReadUint32(EncodeHeader(h) + rest, 24) == h.format.sampleRate % 0x1_0000_0000
    ensures ReadUint32(EncodeHeader(h) + rest, 28) == h.format.byteRate % 0x1_0000_0000
    ensures ReadUint16(EncodeHeader(h) + rest, 32) == h.format.blockAlign % 0x1_0000
    ensures ReadUint16(EncodeHeader(h) + rest, 34) == h.format.bitsPerSample % 0x1_0000
  {
    var f := h.format;
    var pre := RiffDescriptor(h.riffSize) + FmtLayout(f);
    var t := FmtRates(f);
    var w := EncodeHeader(h) + rest;
    assert w == pre + (t + (DataSubchunkHeader(h.dataSize) + rest));
    var tail := DataSubchunkHeader(h.dataSize) + rest;
    ReadSkip32(pre, t + tail, 0);
    ReadSkip32(pre, t + tail, 4);
    ReadSkip16(pre, t + tail, 8);
    ReadSkip16(pre, t + tail, 10);
    ReadPrefix32(t, tail, 0);
    ReadPrefix32(t, tail, 4);
    ReadPrefix16(t, tail, 8);
    ReadPrefix16(t, tail, 10);
    FmtRatesFields(f);
  }

  lemma FmtRatesFields(f: WaveFormat)
    ensures ReadUint32(FmtRates(f), 0) == f.sampleRate % 0x1_0000_0000
    ensures ReadUint32(FmtRates(f), 4) == f.byteRate % 0x1_0000_0000
    ensures ReadUint16(FmtRates(f), 8) == f.blockAlign % 0x1_0000
    ensures ReadUint16(FmtRates(f), 10) == f.bitsPerSample % 0x1_0000
  {
    var s1 := LE32(f.sampleRate);
    var s2 := s1 + LE32(f.byteRate);
    var s3 := s2 + LE16(f.blockAlign);
    ReadLE32(f.sampleRate);
    ReadLE32(f.byteRate);
    ReadLE16(f.blockAlign);
    ReadLE16(f.bitsPerSample);
    ReadSkip16(s3, LE16(f.bitsPerSample), 0);
    ReadSkip16(s2, LE16(f.blockAlign), 0);
    ReadPrefix16(s3, LE16(f.bitsPerSample), 8);
    ReadSkip32(s1, LE32(f.byteRate), 0);
    ReadPrefix32(s2, LE16(f.blockAlign), 4);
    ReadPrefix32(s3, LE16(f.bitsPerSample), 4);
    ReadPrefix32(s1, LE32(f.byteRate), 0);
    ReadPrefix32(s2, LE16(f.blockAlign), 0);
    ReadPrefix32(s3, LE16(f.bitsPerSample), 0);
  }

  lemma SmallMod(x: int, m: int)
    requires 0 <= x < m
    ensures x % m == x
  {
  }

  /** Decoding an encoded header gives it back, whatever follows it, as
      long as every field fits its slot. */
  lemma HeaderRoundTrip(h: WavHeader, rest: seq<byte>)
    requires FitsFields(h)
    ensures DecodeHeader(EncodeHeader(h) + rest) == h
  {
    var w := EncodeHeader(h) + rest;
    RiffSizeRoundTrip(h, rest);
    DataSizeRoundTrip(h, rest);
    FmtLayoutRoundTrip(h, rest);
    FmtRatesRoundTrip(h, rest);
    var f := h.format;
    SmallMod(h.riffSize, 0x1_0000_0000);
    SmallMod(h.dataSize, 0x1_0000_0000);
    SmallMod(f.chunkSize, 0x1_0000_0000);
    SmallMod(f.sampleRate, 0x1_0000_0000);
    SmallMod(f.byteRate, 0x1_0000_0000);
    SmallMod(f.audioFormat, 0x1_0000);
    SmallMod(f.channels, 0x1_0000);
    SmallMod(f.blockAlign, 0x1_0000);
    SmallMod(f.bitsPerSample, 0x1_0000);
    assert DecodeHeader(w).format == f;
  }

  /** The recording format is self-consistent: a block holds one 16-bit
      sample per channel and the byte rate is one block per sample frame. */
  lemma RecordingFormatConsistent()
    ensures RECORDING_FORMAT.blockAlign == RECORDING_FORMAT.channels * RECORDING_FORMAT.bitsPerSample / 8
    ensures RECORDING_FORMAT.byteRate == RECORDING_FORMAT.sampleRate * RECORDING_FORMAT.blockAlign
  {
  }

  // ---------------------------------------------------------------------------
  // The file

  /** The RIFF chunk size as microphone.js writes it: the length of the
      whole file. */
  function RiffChunkSizeAsWritten(sampleCount: nat): nat
  {
    HEADER_LEN + sampleCount * 2
  }

  /** The RIFF chunk size the format defines: the bytes after the eight-byte
      chunk header ("RIFF" and the size field itself). */
  function RiffChunkSize(sampleCount: nat): nat
  {
    HEADER_LEN - 8 + sampleCount * 2
  }

  /** The header microphone.js means to write for `sampleCount` interleaved
      samples: the RIFF chunk covers the 36 header bytes after its own
      eight-byte chunk header, plus the data. */
  function RecordingHeader(sampleCount: nat): (h: WavHeader)
    ensures h.riffSize == h.dataSize + HEADER_LEN - 8
    ensures h.dataSize == 2 * sampleCount && h.format == RECORDING_FORMAT
  {
    WavHeader(RiffChunkSize(sampleCount), RECORDING_FORMAT, sampleCount * 2)
  }

  /** The header as microphone.js writes it: the RIFF size counts the whole
      44-byte header as well as the data. */
  function RecordingHeaderAsWritten(sampleCount: nat): (h: WavHeader)
    ensures h.riffSize == h.dataSize + HEADER_LEN
    ensures h.dataSize == 2 * sampleCount && h.format == RECORDING_FORMAT
  {
    WavHeader(RiffChunkSizeAsWritten(sampleCount), RECORDING_FORMAT, sampleCount * 2)
  }

  /** The whole file for a buffer of interleaved samples, with the RIFF size
      the format defines. */
  function WavFile(samples: seq<real>): (w: seq<byte>)
    ensures |w| == HEADER_LEN + 2 * |samples|
  {
    EncodeHeader(RecordingHeader(|samples|)) + PcmData(samples)
  }

  /** The whole file as microphone.js writes it: the same layout, with the
      RIFF size field holding the file length. */
  function WavFileAsWritten(samples: seq<real>): (w: seq<byte>)
    ensures |w| == HEADER_LEN + 2 * |samples|
  {
    EncodeHeader(RecordingHeaderAsWritten(|samples|)) + PcmData(samples)
  }

  /** The file's header reads back as the recording format, its RIFF size
      is its length less the eight-byte chunk header, and its data size is
      the number of bytes after the header. */
  lemma WavFileHeader(samples: seq<real>)
    requires HEADER_LEN + 2 * |samples| < 0x1_0000_0000
    ensures |WavFile(samples)| == HEADER_LEN + 2 * |samples|
    ensures DecodeHeader(WavFile(samples)).format == RECORDING_FORMAT
    ensures DecodeHeader(WavFile(samples)).riffSize == |WavFile(samples)| - 8
    ensures DecodeHeader(WavFile(samples)).dataSize == |WavFile(samples)| - HEADER_LEN
  {
    HeaderRoundTrip(RecordingHeader(|samples|), PcmData(samples));
  }

  /** With the size field microphone.js writes, the RIFF chunk claims the
      length of the whole file, eight bytes more than follow its header. */
  lemma RiffSizeAsWrittenIsFileLength(samples: seq<real>)
    requires HEADER_LEN + 2 * |samples| < 0x1_0000_0000
    ensures var w := WavFileAsWritten(samples);
      DecodeHeader(w).riffSize == |w| && DecodeHeader(w).riffSize != |w| - 8
    ensures DecodeHeader(WavFileAsWritten(samples)).format == RECORDING_FORMAT
    ensures DecodeHeader(WavFileAsWritten(samples)).dataSize == |WavFileAsWritten(samples)| - HEADER_LEN
  {
    HeaderRoundTrip(RecordingHeaderAsWritten(|samples|), PcmData(samples));
  }

  /** The written file is the corrected one with only the RIFF size field at
      bytes 4-7 overwritten, and that field reads eight more. */
  lemma AsWrittenDiffersOnlyInRiffSize(samples: seq<real>)
    requires HEADER_LEN + 2 * |samples| < 0x1_0000_0000
    ensures WavFileAsWritten(samples) == Splice(WavFile(samples), 4, LE32(RiffChunkSizeAsWritten(|samples|)))
    ensures DecodeHeader(WavFileAsWritten(samples)).riffSize == DecodeHeader(WavFile(samples)).riffSize + 8
  {
    var tag, wave := Ascii("RIFF"), Ascii("WAVE");
    var tail := wave + FmtSubchunk(RECORDING_FORMAT) + DataSubchunkHeader(2 * |samples|) + PcmData(samples);
    assert WavFile(samples) == tag + LE32(RiffChunkSize(|samples|)) + tail;
    assert WavFileAsWritten(samples) == tag + LE32(RiffChunkSizeAsWritten(|samples|)) + tail;
    SpliceMiddle(tag, LE32(RiffChunkSize(|samples|)), LE32(RiffChunkSizeAsWritten(|samples|)), tail);
    WavFileHeader(samples);
    RiffSizeAsWrittenIsFileLength(samples);
  }

  /** Sample i of the interleaved buffer is stored at byte 44 + 2i of the
      written file and reads back as the truncated 16-bit value. */
  lemma SampleAt(samples: seq<real>, i: nat)
    requires i < |samples| && -1.0 <= samples[i] <= 1.0
    ensures HEADER_LEN + 2 * i + 2 <= |WavFileAsWritten(samples)|
    ensures AsInt16(ReadUint16(WavFileAsWritten(samples), HEADER_LEN + 2 * i)) == Trunc(samples[i] * SAMPLE_SCALE)
  {
    var p := PcmData(samples);
    ReadSkip16(EncodeHeader(RecordingHeaderAsWritten(|samples|)), p, 2 * i);
    PcmDataLayout(samples, i);
    assert ReadUint16(p, 2 * i) == ReadUint16(p[2 * i..2 * i + 2], 0);
    SampleRoundTrip(samples[i]);
  }

  // ---------------------------------------------------------------------------
  // Writing through the DataView

  /** writeUTFBytes: one setUint8 per character of the tag. */
  method WriteUtfBytes(view: array<byte>, offset: nat, s: string)
    requires offset + |s| <= view.Length
    modifies view
    ensures view[..] == Splice(old(view[..]), offset, Ascii(s))
  {
    ghost var v := view[..];
    for i := 0 to |s|
      invariant view[..] == Splice(v, offset, Ascii(s)[..i])
    {
      Store(view, offset + i, [Byte(s[i] as int)]);
      SpliceAdjacent(v, offset, Ascii(s)[..i], [Ascii(s)[i]]);
      assert Ascii(s)[..i] + [Ascii(s)[i]] == Ascii(s)[..i + 1];
    }
    assert Ascii(s)[..|s|] == Ascii(s);
  }

  /** The RIFF chunk descriptor, bytes 0 to 11. */
  method WriteRiffDescriptor(view: array<byte>, riffSize: int)
    requires HEADER_LEN <= view.Length
    modifies view
    ensures view[..] == Splice(old(view[..]), 0, RiffDescriptor(riffSize))
  {
    ghost var v := view[..];
    WriteUtfBytes(view, 0, "RIFF");
    Store(view, 4, LE32(riffSize));
    SpliceAdjacent(v, 0, Ascii("RIFF"), LE32(riffSize));
    WriteUtfBytes(view, 8, "WAVE");
    SpliceAdjacent(v, 0, Ascii("RIFF") + LE32(riffSize), Ascii("WAVE"));
  }

  /** The "fmt " sub-chunk, bytes 12 to 35, with the constants of
      microphone.js. */
  method WriteFmtSubchunk(view: array<byte>)
    requires HEADER_LEN <= view.Length
    modifies view
    ensures view[..] == Splice(old(view[..]), 12, FmtSubchunk(RECORDING_FORMAT))
  {
    ghost var v := view[..];
    WriteUtfBytes(view, 12, "fmt ");
    Store(view, 16, LE32(16));
    SpliceAdjacent(v, 12, Ascii("fmt "), LE32(16));
    Store(view, 20, LE16(1));
    SpliceAdjacent(v, 12, Ascii("fmt ") + LE32(16), LE16(1));
    Store(view, 22, LE16(2));
    SpliceAdjacent(v, 12, Ascii("fmt ") + LE32(16) + LE16(1), LE16(2));
    ghost var w := view[..];
    Store(view, 24, LE32(SAMPLE_RATE));
    Store(view, 28, LE32(SAMPLE_RATE * 4));
    SpliceAdjacent(w, 24, LE32(SAMPLE_RATE), LE32(SAMPLE_RATE * 4));
    Store(view, 32, LE16(4));
    SpliceAdjacent(w, 24, LE32(SAMPLE_RATE) + LE32(SAMPLE_RATE * 4), LE16(4));
    Store(view, 34, LE16(16));
    SpliceAdjacent(w, 24, LE32(SAMPLE_RATE) + LE32(SAMPLE_RATE * 4) + LE16(4), LE16(16));
    SpliceAdjacent(v, 12, FmtLayout(RECORDING_FORMAT), FmtRates(RECORDING_FORMAT));
  }

  /** The "data" sub-chunk header, bytes 36 to 43. */
  method WriteDataSubchunkHeader(view: array<byte>, dataSize: int)
    requires HEADER_LEN <= view.Length
    modifies view
    ensures view[..] == Splice(old(view[..]), 36, DataSubchunkHeader(dataSize))
  {
    ghost var v := view[..];
    WriteUtfBytes(view, 36, "data");
    Store(view, 40, LE32(dataSize));
    SpliceAdjacent(v, 36, Ascii("data"), LE32(dataSize));
  }

  /** Storing the bytes of sample i right after the first i samples' bytes
      extends the stored PCM data by one sample. */
  lemma StorePcmStep(v: seq<byte>, samples: seq<real>, i: nat)
    requires i < |samples| && |v| == HEADER_LEN + 2 * |samples|
    ensures Splice(Splice(v, HEADER_LEN, PcmData(samples[..i])), HEADER_LEN + 2 * i, SampleBytes(samples[i]))
      == Splice(v, HEADER_LEN, PcmData(samples[..i + 1]))
  {
    PcmDataSnoc(samples, i);
    SpliceAdjacent(v, HEADER_LEN, PcmData(samples[..i]), SampleBytes(samples[i]));
  }

  /** Each sample as a 16-bit little-endian integer, from byte 44 on. */
  method WriteSamples(view: array<byte>, samples: array<real>)
    requires view.Length == HEADER_LEN + 2 * samples.Length
    modifies view
    ensures view[..] == Splice(old(view[..]), HEADER_LEN, PcmData(samples[..]))
  {
    ghost var v := view[..];
    var index := HEADER_LEN;
    for i := 0 to samples.Length
      invariant index == HEADER_LEN + 2 * i
      invariant view[..] == Splice(v, HEADER_LEN, PcmData(samples[..i]))
    {
      Store(view, index, SampleBytes(samples[i]));
      StorePcmStep(v, samples[..], i);
      index := index + 2;
    }
    assert samples[..samples.Length] == samples[..];
  }

  /** writeToWav: merges each channel's chunks to `recordingLength` samples,
      interleaves them and lays out the WAVE file in a zeroed buffer. A chunk
      list longer than `recordingLength` makes the merge fail. */
  method WriteToWav(leftChannel: seq<seq<real>>, rightChannel: seq<seq<real>>, recordingLength: nat)
    returns (r: Result<array<byte>, string>)
    ensures r.Failure? <==>
      |Concat(leftChannel)| > recordingLength || |Concat(rightChannel)| > recordingLength
    ensures r.Success? ==> fresh(r.value) && r.value[..] == WavFileAsWritten(Interleaved(
      Concat(leftChannel) + Zeros(recordingLength - |Concat(leftChannel)|),
      Concat(rightChannel) + Zeros(recordingLength - |Concat(rightChannel)|)))
  {
    var leftBuffer := MergeBuffers(leftChannel, recordingLength);
    if leftBuffer.Failure? {
      return Failure(leftBuffer.error);
    }
    var rightBuffer := MergeBuffers(rightChannel, recordingLength);
    if rightBuffer.Failure? {
      return Failure(rightBuffer.error);
    }
    var interleaved := InterleaveChannels(leftBuffer.value, rightBuffer.value);
    var view := WriteFile(interleaved);
    r := Success(view);
  }

  /** The 44 header bytes, sub-chunk by sub-chunk. */
  method WriteHeader(view: array<byte>, sampleCount: nat)
    requires HEADER_LEN <= view.Length
    modifies view
    ensures view[..] == Splice(old(view[..]), 0, EncodeHeader(RecordingHeaderAsWritten(sampleCount)))
  {
    ghost var v := view[..];
    ghost var h := RecordingHeaderAsWritten(sampleCount);
    assert h.riffSize == RiffChunkSizeAsWritten(sampleCount) && h.dataSize == sampleCount * 2;
    WriteRiffDescriptor(view, RiffChunkSizeAsWritten(sampleCount));
    WriteFmtSubchunk(view);
    SpliceAdjacent(v, 0, RiffDescriptor(h.riffSize), FmtSubchunk(h.format));
    WriteDataSubchunkHeader(view, sampleCount * 2);
    SpliceAdjacent(v, 0, RiffDescriptor(h.riffSize) + FmtSubchunk(h.format), DataSubchunkHeader(h.dataSize));
  }

  /** Lays out header and samples in a new zeroed buffer of 44 + 2n bytes. */
  method WriteFile(interleaved: array<real>) returns (view: array<byte>)
    ensures fresh(view)
    ensures view[..] == WavFileAsWritten(interleaved[..])
  {
    view := new byte[HEADER_LEN + interleaved.Length * 2](_ => 0);
    ghost var v := view[..];
    ghost var header := EncodeHeader(RecordingHeaderAsWritten(interleaved.Length));
    WriteHeader(view, interleaved.Length);
    WriteSamples(view, interleaved);
    SpliceWhole(v, header, PcmData(interleaved[..]));
  }
}
