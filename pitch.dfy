/** The two frequency estimators of microphone.js and the note lookup on
    their results (`computeFreqFromAutocorr`, `computeFreqFromFFT`,
    `jainsMethodInterpolate`, `getNoteFromAutocorr`, `getNoteFromFFT`);
    test_harness/test_driver.js carries the same functions. */
module Pitch {
  import opened Wrappers
  import opened NoteTable
  import opened Autocorrelation
  import opened Fourier

  /** A JavaScript number as these functions can produce it: a finite
      integer (after `Math.round`), `Infinity`, or `NaN`. */
  datatype Freq = Hz(value: int) | Infinite | NotANumber

  /** `Math.round`: the nearest integer, halves rounded up. */
  function JsRound(x: real): (r: int)
    ensures x - 0.5 < r as real <= x + 0.5
  {
    (x + 0.5).Floor
  }

  /** `matchNote(freq)` for every number the estimators return. `Infinity`
      is at distance `Infinity` from every entry, so the `<=` test keeps
      moving to the last entry; every comparison with `NaN` is false, so the
      default first entry stays. */
  function NoteFor(f: Freq): (n: Note)
    ensures n in Notes
  {
    NotesCount();
    match f
    case Hz(v) => Notes[NearestIndex(v as real)]
    case Infinite => Notes[|Notes| - 1]
    case NotANumber => Notes[0]
  }

  /** The non-finite results agree with the finite ones at the ends of the
      table: `Infinity` names the note every frequency from 4187 Hz up gets,
      and `NaN` the note every frequency up to 58 Hz gets. */
  lemma NonFiniteNotesAtTableEnds(v: int)
    ensures NoteFor(Infinite) == Note("C8", 4186.01)
    ensures NoteFor(NotANumber) == Note("A#1", 58.2705)
    ensures v >= 4187 ==> NoteFor(Hz(v)) == NoteFor(Infinite)
    ensures v <= 58 ==> NoteFor(Hz(v)) == NoteFor(NotANumber)
  {
    NotesStrictlyAscending();
    if v >= 4187 {
      ClampHigh(v as real);
    }
    if v <= 58 {
      ClampLow(v as real);
    }
  }

  /** `matchNote` applied to any estimator result. */
  method MatchFreq(f: Freq) returns (closest: Note)
    ensures closest == NoteFor(f)
  {
    NotesCount();
    match f {
      case Hz(v) =>
        closest := MatchNote(v as real);
      case Infinite =>
        closest := Notes[|Notes| - 1];
      case NotANumber =>
        closest := Notes[0];
    }
  }

  // ---------------------------------------------------------------------------
  // Autocorrelation estimate

  /** `computeFreqFromAutocorr(data)`. A frame shorter than `BUFFER_LEN`
      reads `undefined` samples, so every lag sum is `NaN`, no loop of the
      peak search advances, the peak lag is 0 and `SAMPLE_RATE / 0` is
      `Infinity`. */
  function FreqFromAutocorr(data: seq<real>): (f: Freq)
    ensures f == Infinite <==> |data| < BUFFER_LEN
    ensures f != NotANumber
  {
    if |data| < BUFFER_LEN then Infinite
    else
      PeakIndexInRange(AutocorrelationOf(data));
      Hz(JsRound(SAMPLE_RATE as real / PeakIndexOf(AutocorrelationOf(data)) as real))
  }

  /** A full frame always gives a finite frequency between 43 Hz (lag
      `BUFFER_LEN`) and 44100 Hz (lag 1); a short frame gives `Infinity`,
      which names "C8". */
  lemma AutocorrFreqRange(data: seq<real>)
    ensures |data| < BUFFER_LEN <==> FreqFromAutocorr(data) == Infinite
    ensures |data| >= BUFFER_LEN ==>
      FreqFromAutocorr(data).Hz? && 43 <= FreqFromAutocorr(data).value <= 44100
  {
    if |data| >= BUFFER_LEN {
      var lag := PeakIndexOf(AutocorrelationOf(data));
      PeakIndexSpec(AutocorrelationOf(data));
      QuotientRange(lag);
    }
  }

  lemma QuotientRange(lag: nat)
    requires 1 <= lag <= BUFFER_LEN
    ensures 43 <= JsRound(SAMPLE_RATE as real / lag as real) <= 44100
  {
    var x := SAMPLE_RATE as real / lag as real;
    assert x * lag as real == 44100.0;
    if x > 44100.0 {
      assert x * lag as real >= x;
    }
    if x < 43.0 {
      assert x * lag as real <= x * 1024.0;
    }
  }

  /** Only the first `BUFFER_LEN` samples count. */
  lemma AutocorrReadsOneFrame(data: seq<real>)
    requires |data| >= BUFFER_LEN
    ensures FreqFromAutocorr(data) == FreqFromAutocorr(data[..BUFFER_LEN])
  {
    ReadsOnlyFrame(data);
  }

  /** An all-zero frame has its peak at lag `BUFFER_LEN`: 43 Hz, below the
      table, so "A#1" is named. */
  lemma SilentFrameFreq(data: seq<real>)
    requires |data| == BUFFER_LEN
    requires forall k | 0 <= k < |data| :: data[k] == 0.0
    ensures FreqFromAutocorr(data) == Hz(43)
    ensures NoteFor(FreqFromAutocorr(data)).name == "A#1"
  {
    SilentFramePeak(data);
    assert SAMPLE_RATE as real / 1024.0 == 43.06640625;
    NonFiniteNotesAtTableEnds(43);
  }

  method ComputeFreqFromAutocorr(data: seq<real>) returns (f: Freq)
    ensures f == FreqFromAutocorr(data)
  {
    if |data| < BUFFER_LEN {
      return Infinite;
    }
    var sums := Autocorrelate(data);
    assert sums == AutocorrelationOf(data);
    var maxIndex := GetPeakPeriodicityIndex(sums);
    PeakIndexSpec(sums);
    f := Hz(JsRound(SAMPLE_RATE as real / maxIndex as real));
  }

  /** `getNoteFromAutocorr(data)`: the name of the matched note. */
  method GetNoteFromAutocorr(data: seq<real>) returns (name: string)
    ensures name == NoteFor(FreqFromAutocorr(data)).name
  {
    var f := ComputeFreqFromAutocorr(data);
    var note := MatchFreq(f);
    name := note.name;
  }

  // ---------------------------------------------------------------------------
  // FFT estimate

  /** The FFT size of microphone.js and of the harness, BUFFER_LEN, passes
      `forward`'s power-of-two test. */
  lemma BufferLenPassesSizeGuard()
    ensures PassesSizeGuard(BUFFER_LEN)
  {
    Pow2IsPowerOfTwo(10);
    assert Pow2(10) == 1024;
  }

  /** Hertz per spectrum bin: `(SAMPLE_RATE / 2) / (MY_FFT_SIZE / 2)`. */
  const FFT_FREQ_RES: real := (SAMPLE_RATE as real / 2.0) / (BUFFER_LEN as real / 2.0)

  /** The bin the arg-max loop of `computeFreqFromFFT` picks: the earliest
      largest bin. An empty spectrum leaves it at 0. */
  function SpectrumPeakOf(spectrum: seq<real>): nat
  {
    if |spectrum| == 0 then 0 else ArgMaxFrom(spectrum, 0, |spectrum|)
  }

  /** The arg-max loop of `computeFreqFromFFT`. */
  method SpectrumPeakIndex(spectrum: array<real>) returns (maxIndex: nat)
    ensures maxIndex == SpectrumPeakOf(spectrum[..])
  {
    maxIndex := 0;
    if spectrum.Length == 0 {
      return;
    }
    var m := spectrum[0];
    var i := 1;
    while i < spectrum.Length
      invariant 1 <= i <= spectrum.Length
      invariant maxIndex == ArgMaxFrom(spectrum[..], 0, i) && m == spectrum[maxIndex]
    {
      if spectrum[i] > m {
        maxIndex := i;
        m := spectrum[i];
      }
      i := i + 1;
    }
  }

  /** The bin is a largest one, and no earlier bin is as large. */
  lemma SpectrumPeakIsEarliestMax(spectrum: seq<real>)
    requires |spectrum| > 0
    ensures SpectrumPeakOf(spectrum) < |spectrum|
    ensures forall k | 0 <= k < |spectrum| :: spectrum[k] <= spectrum[SpectrumPeakOf(spectrum)]
    ensures forall k | 0 <= k < SpectrumPeakOf(spectrum) :: spectrum[k] < spectrum[SpectrumPeakOf(spectrum)]
  {
    ArgMaxFromIsEarliestMax(spectrum, 0, |spectrum|);
  }

  /** `jainsMethodInterpolate(spctrm, maxIndex)`, with `None` for `NaN`.
      Reads outside the spectrum give `undefined`, whose absolute value is
      `NaN`: without a left neighbour the comparison fails and the right
      branch runs; without a right neighbour, or with a zero peak, that
      branch divides into `NaN`. */
  function JainsMethodInterpolate(s: seq<real>, maxIndex: nat): (bin: Option<real>)
    ensures bin.Some? ==> maxIndex + 1 < |s| && 0.0 <= bin.value
    ensures bin.Some? ==> maxIndex as real - 1.0 <= bin.value < maxIndex as real + 1.0
    ensures maxIndex + 1 >= |s| ==> bin.None?
  {
    if maxIndex >= |s| then None
    else if 1 <= maxIndex && maxIndex + 1 < |s| && Abs(s[maxIndex - 1]) > Abs(s[maxIndex + 1]) then
      Some(LeftInterpolation(maxIndex, Abs(s[maxIndex - 1]), Abs(s[maxIndex])))
    else if maxIndex + 1 < |s| && Abs(s[maxIndex]) != 0.0 then
      Some(RightInterpolation(maxIndex, Abs(s[maxIndex]), Abs(s[maxIndex + 1])))
    else None
  }

  /** The `m1 > m3` branch: `a = m2 / m1`, `maxIndex - 1 + a / (1 + a)`. */
  function LeftInterpolation(k: nat, m1: real, m2: real): (b: real)
    requires m1 > 0.0 && m2 >= 0.0
    ensures k as real - 1.0 <= b < k as real
    ensures m2 >= m1 ==> b >= k as real - 0.5
  {
    var a := m2 / m1;
    assert (a - 1.0) * m1 == m2 - m1;
    SignOfProduct(a - 1.0, m1);
    FractionBounds(a);
    k as real - 1.0 + a / (1.0 + a)
  }

  /** The other branch: `a = m3 / m2`, `maxIndex + a / (1 + a)`. */
  function RightInterpolation(k: nat, m2: real, m3: real): (b: real)
    requires m2 > 0.0 && m3 >= 0.0
    ensures k as real <= b < k as real + 1.0
    ensures m3 <= m2 ==> b <= k as real + 0.5
  {
    var a := m3 / m2;
    assert (1.0 - a) * m2 == m2 - m3;
    SignOfProduct(1.0 - a, m2);
    FractionBounds(a);
    k as real + a / (1.0 + a)
  }

  /** The interpolated bin lies within one bin of the peak, on the side of
      the larger neighbour, and never below bin 0; when the peak bin is at
      least as large as its neighbours, it moves by at most half a bin. */
  lemma JainsStaysNearPeak(s: seq<real>, k: nat)
    ensures JainsMethodInterpolate(s, k).Some? ==>
      var b := JainsMethodInterpolate(s, k).value;
      && k + 1 < |s|
      && 0.0 <= b && k as real - 1.0 <= b < k as real + 1.0
      && (b < k as real <==> 1 <= k && Abs(s[k - 1]) > Abs(s[k + 1]))
    ensures JainsMethodInterpolate(s, k).Some? && k + 1 < |s| &&
            (1 <= k ==> Abs(s[k - 1]) <= Abs(s[k])) && Abs(s[k + 1]) <= Abs(s[k]) ==>
      var b := JainsMethodInterpolate(s, k).value;
      k as real - 0.5 <= b <= k as real + 0.5
  {
  }

  /** `a / (1 + a)` for a non-negative ratio `a` is in `[0, 1)`; it is at
      least a half exactly when `a >= 1`, and at most a half exactly when
      `a <= 1`. */
  lemma FractionBounds(a: real)
    requires a >= 0.0
    ensures 0.0 <= a / (1.0 + a) < 1.0
    ensures a >= 1.0 <==> a / (1.0 + a) >= 0.5
    ensures a <= 1.0 <==> a / (1.0 + a) <= 0.5
  {
    var d := a / (1.0 + a);
    assert d * (1.0 + a) == a;
    assert (d - 0.5) * (2.0 + 2.0 * a) == a - 1.0;
    SignOfProduct(d - 0.5, 2.0 + 2.0 * a);
    assert (1.0 - d) * (1.0 + a) == 1.0;
    SignOfProduct(1.0 - d, 1.0 + a);
  }

  /** Multiplying by a positive number keeps the sign. */
  lemma SignOfProduct(x: real, y: real)
    requires y > 0.0
    ensures x * y >= 0.0 <==> x >= 0.0
    ensures x * y <= 0.0 <==> x <= 0.0
    ensures x * y > 0.0 <==> x > 0.0
  {
  }

  lemma ScaleBounds(x: real, top: real, c: real)
    requires 0.0 <= x <= top && c > 0.0
    ensures 0.0 <= x * c <= top * c
  {
    assert top * c - x * c == (top - x) * c;
  }

  lemma JsRoundMonotone(x: real, y: real)
    requires x <= y
    ensures JsRound(x) <= JsRound(y)
  {
    assert (JsRound(x) as real) < JsRound(y) as real + 1.0;
  }

  /** The frequency `computeFreqFromFFT` returns for a spectrum. */
  function FreqFromSpectrum(spectrum: seq<real>): (f: Freq)
    ensures f != Infinite
    ensures f.Hz? ==> f.value >= 0
    ensures |spectrum| <= 1 ==> f == NotANumber
  {
    match JainsMethodInterpolate(spectrum, SpectrumPeakOf(spectrum))
    case None => NotANumber
    case Some(bin) => Hz(JsRound(bin * FFT_FREQ_RES))
  }

  /** A finite FFT estimate is a non-negative frequency no higher than the
      centre of the last bin. */
  lemma FftFreqRange(spectrum: seq<real>)
    requires |spectrum| > 0
    ensures FreqFromSpectrum(spectrum).Hz? ==>
      0 <= FreqFromSpectrum(spectrum).value <= JsRound((|spectrum| - 1) as real * FFT_FREQ_RES)
  {
    var k := SpectrumPeakOf(spectrum);
    JainsStaysNearPeak(spectrum, k);
    var bin := JainsMethodInterpolate(spectrum, k);
    if bin.Some? {
      var top := (|spectrum| - 1) as real;
      assert FFT_FREQ_RES == 43.06640625;
      assert 0.0 <= bin.value <= top;
      ScaleBounds(bin.value, top, FFT_FREQ_RES);
      JsRoundMonotone(bin.value * FFT_FREQ_RES, top * FFT_FREQ_RES);
    }
  }

  /** The FFT estimate is `NaN` exactly when the peak bin is the last one,
      or is zero while its left neighbour is not larger than its right. */
  lemma FftFreqNaN(spectrum: seq<real>)
    requires |spectrum| > 0
    ensures FreqFromSpectrum(spectrum) == NotANumber <==>
      var k := SpectrumPeakOf(spectrum);
      k + 1 == |spectrum| ||
      (spectrum[k] == 0.0 && !(1 <= k && Abs(spectrum[k - 1]) > Abs(spectrum[k + 1])))
  {
    SpectrumPeakIsEarliestMax(spectrum);
  }

  /** `computeFreqFromFFT` on `fft`, which microphone.js and the test
      harness build with `BUFFER_LEN` points. A frame whose length differs
      from the FFT size makes `forward` throw. */
  method ComputeFreqFromFFT(fft: FFT, data: seq<real>) returns (r: Result<Freq, FftError>)
    requires fft.Valid()
    modifies fft`peak, fft`peakBand, fft.re, fft.im, fft.spectrum
    ensures fft.Valid()
    ensures r.Failure? <==> !(PassesSizeGuard(fft.bufferSize) && |data| == fft.bufferSize)
    ensures r.Failure? ==>
      r.error == if PassesSizeGuard(fft.bufferSize) then BufferSizeMismatch(fft.bufferSize, |data|) else InvalidBufferSize
    ensures r.Success? ==> r.value == FreqFromSpectrum(fft.spectrum[..])
    ensures r.Success? ==> fft.Transformed(data, PeakTrack(old(fft.peak), old(fft.peakBand)))
    ensures r.Failure? ==> unchanged(fft, fft.re, fft.im, fft.spectrum)
  {
    var outcome := fft.Forward(data);
    if outcome.Fail? {
      return Failure(outcome.error);
    }
    var maxIndex := SpectrumPeakIndex(fft.spectrum);
    var f := InterpolatedFreq(fft.spectrum[..], maxIndex);
    r := Success(f);
  }

  /** The last two steps of `computeFreqFromFFT`: Jain's interpolation
      around the peak bin, scaled to Hertz and rounded. */
  method InterpolatedFreq(spectrum: seq<real>, maxIndex: nat) returns (f: Freq)
    requires maxIndex == SpectrumPeakOf(spectrum)
    ensures f == FreqFromSpectrum(spectrum)
  {
    var interpolatedBin := JainsMethodInterpolate(spectrum, maxIndex);
    match interpolatedBin {
      case None =>
        f := NotANumber;
      case Some(bin) =>
        f := Hz(JsRound(bin * FFT_FREQ_RES));
    }
  }

  /** `getNoteFromFFT(data)`: the name of the matched note, or the error
      `forward` threw. */
  method GetNoteFromFFT(fft: FFT, data: seq<real>) returns (r: Result<string, FftError>)
    requires fft.Valid()
    modifies fft`peak, fft`peakBand, fft.re, fft.im, fft.spectrum
    ensures fft.Valid()
    ensures r.Failure? <==> !(PassesSizeGuard(fft.bufferSize) && |data| == fft.bufferSize)
    ensures r.Failure? ==>
      r.error == if PassesSizeGuard(fft.bufferSize) then BufferSizeMismatch(fft.bufferSize, |data|) else InvalidBufferSize
    ensures r.Success? ==> r.value == NoteFor(FreqFromSpectrum(fft.spectrum[..])).name
    ensures r.Success? ==> fft.Transformed(data, PeakTrack(old(fft.peak), old(fft.peakBand)))
    ensures r.Failure? ==> unchanged(fft, fft.re, fft.im, fft.spectrum)
  {
    var f := ComputeFreqFromFFT(fft, data);
    if f.Failure? {
      return Failure(f.error);
    }
    var note := MatchFreq(f.value);
    r := Success(note.name);
  }
}
