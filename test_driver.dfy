/** The offline harness of test_harness/test_driver.js: a decoded audio
    channel is cut into BUFFER_LEN-sample frames and each frame is labelled
    with a note by both detectors, giving one autocorrelation column and one
    FFT column. */
module TestDriver {
  import opened NoteTable
  import opened Autocorrelation
  import opened Fourier
  import opened Pitch
  import Wav

  /** The frames `finishedLoading` cuts from the channel: the whole
      BUFFER_LEN-sample blocks from the start; a partial block at the end is
      dropped. */
  function Frames(data: seq<real>): (frames: seq<seq<real>>)
    ensures |frames| == |data| / BUFFER_LEN
    ensures forall k | 0 <= k < |frames| :: |frames[k]| == BUFFER_LEN
  {
    seq(|data| / BUFFER_LEN, k requires 0 <= k < |data| / BUFFER_LEN =>
      FrameBound(data, k);
      data[k * BUFFER_LEN .. k * BUFFER_LEN + BUFFER_LEN])
  }

  lemma FrameBound(data: seq<real>, k: nat)
    requires k < |data| / BUFFER_LEN
    ensures k * BUFFER_LEN + BUFFER_LEN <= |data| / BUFFER_LEN * BUFFER_LEN <= |data|
  {
  }

  /** The frames, in order, are exactly the first |data| / BUFFER_LEN
      blocks of the channel: nothing is skipped, repeated or reordered. */
  lemma {:induction false} FramesTile(data: seq<real>, n: nat)
    requires n <= |data| / BUFFER_LEN
    ensures n * BUFFER_LEN <= |data|
    ensures Wav.Concat(Frames(data)[..n]) == data[..n * BUFFER_LEN]
  {
    if n > 0 {
      FramesTile(data, n - 1);
      var frames := Frames(data)[..n];
      assert frames[..n - 1] == Frames(data)[..n - 1];
      assert frames[n - 1] == data[(n - 1) * BUFFER_LEN .. n * BUFFER_LEN];
      assert data[..n * BUFFER_LEN] == data[..(n - 1) * BUFFER_LEN] + data[(n - 1) * BUFFER_LEN .. n * BUFFER_LEN];
    }
  }

  /** The autocorrelation estimate of each frame. */
  function AutocorrFreqs(data: seq<real>): (freqs: seq<Freq>)
    ensures |freqs| == |data| / BUFFER_LEN
  {
    var frames := Frames(data);
    seq(|frames|, k requires 0 <= k < |frames| => FreqFromAutocorr(frames[k]))
  }

  /** The column of note names matched to a sequence of estimates. */
  function Labels(freqs: seq<Freq>): (names: seq<string>)
    ensures |names| == |freqs|
  {
    seq(|freqs|, k requires 0 <= k < |freqs| => NoteFor(freqs[k]).name)
  }

  lemma LabelsAppend(freqs: seq<Freq>, f: Freq)
    ensures Labels(freqs + [f]) == Labels(freqs) + [NoteFor(f).name]
  {
    assert forall k | 0 <= k < |freqs| :: (freqs + [f])[k] == freqs[k];
  }

  /** A silent channel is labelled "A#1" by the autocorrelation detector on
      every frame. */
  lemma SilentChannelLabels(data: seq<real>)
    requires forall j | 0 <= j < |data| :: data[j] == 0.0
    ensures forall k | 0 <= k < |data| / BUFFER_LEN :: Labels(AutocorrFreqs(data))[k] == "A#1"
  {
    forall k | 0 <= k < |data| / BUFFER_LEN
      ensures Labels(AutocorrFreqs(data))[k] == "A#1"
    {
      FrameBound(data, k);
      var frame := Frames(data)[k];
      assert forall j | 0 <= j < |frame| :: frame[j] == data[k * BUFFER_LEN + j];
      SilentFrameFreq(frame);
    }
  }

  /** The frame that starts at sample i = k * BUFFER_LEN lies inside the
      channel, and its estimate extends the estimates of the frames before
      it. */
  lemma FrameStep(data: seq<real>, k: nat, i: nat, freqs: seq<Freq>)
    requires k < |data| / BUFFER_LEN && i == k * BUFFER_LEN
    requires freqs == AutocorrFreqs(data)[..k]
    ensures i + BUFFER_LEN <= |data|
    ensures freqs + [FreqFromAutocorr(data[i..i + BUFFER_LEN])] == AutocorrFreqs(data)[..k + 1]
  {
    FrameBound(data, k);
  }

  /** The loop stops after the last whole frame. */
  lemma FramesDone(data: seq<real>, k: nat, freqs: seq<Freq>)
    requires k <= |data| / BUFFER_LEN && k * BUFFER_LEN >= |data| / BUFFER_LEN * BUFFER_LEN
    requires freqs == AutocorrFreqs(data)[..k]
    ensures freqs == AutocorrFreqs(data)
  {
  }

  /** What the FFT estimate of a frame can be: never `Infinity`, and when
      finite, between 0 Hz and the rounded centre frequency of the last of
      the `BUFFER_LEN / 2` spectrum bins. */
  predicate InFftRange(f: Freq)
  {
    f != Infinite && (f.Hz? ==> 0 <= f.value <= JsRound((BUFFER_LEN / 2 - 1) as real * FFT_FREQ_RES))
  }

  /** Every spectrum of the harness's FFT gives an estimate in that range. */
  lemma SpectrumFreqInRange(spectrum: seq<real>)
    requires |spectrum| == BUFFER_LEN / 2
    ensures InFftRange(FreqFromSpectrum(spectrum))
  {
    FftFreqRange(spectrum);
  }

  lemma InRangeAppend(freqs: seq<Freq>, f: Freq)
    requires forall j | 0 <= j < |freqs| :: InFftRange(freqs[j])
    requires InFftRange(f)
    ensures forall j | 0 <= j < |freqs + [f]| :: InFftRange((freqs + [f])[j])
  {
  }

  /** The page's globals: the two result columns and the FFT built by
      `loadAndTestWithFile`. */
  class Harness {
    var autocorrNotes: seq<string>
    var fftNotes: seq<string>
    const fft: FFT

    ghost predicate Valid()
      reads this, fft, fft.reverseTable
    {
      && fft.Valid() && fft.bufferSize == BUFFER_LEN
      && |autocorrNotes| == |fftNotes|
    }

    /** Empty columns and `new FFT(BUFFER_LEN, SAMPLE_RATE)`. */
    constructor (host: Host)
      requires SqrtNonNegative(host.sqrt)
      ensures Valid()
      ensures autocorrNotes == [] && fftNotes == []
      ensures fft.sampleRate == SAMPLE_RATE as real
    {
      autocorrNotes := [];
      fftNotes := [];
      fft := new FFT(BUFFER_LEN, SAMPLE_RATE as real, host);
    }

    /** `finishedLoading`: labels every whole frame of the channel with both
        detectors, appending to the two columns. Every frame has the FFT's
        size, so `forward` never throws here. */
    method FinishedLoading(data: seq<real>) returns (ghost fftFreqs: seq<Freq>)
      requires Valid()
      modifies this`autocorrNotes, this`fftNotes, fft`peak, fft`peakBand, fft.re, fft.im, fft.spectrum
      ensures Valid()
      ensures autocorrNotes == old(autocorrNotes) + Labels(AutocorrFreqs(data))
      ensures fftNotes == old(fftNotes) + Labels(fftFreqs)
      ensures |fftFreqs| == |data| / BUFFER_LEN
      ensures forall k | 0 <= k < |fftFreqs| :: InFftRange(fftFreqs[k])
    {
      var lim := (|data| / BUFFER_LEN) * BUFFER_LEN;
      var i := 0;
      ghost var k := 0;
      fftFreqs := [];
      ghost var autocorrFreqs: seq<Freq> := [];
      while i < lim
        invariant i == k * BUFFER_LEN && k <= |data| / BUFFER_LEN
        invariant autocorrFreqs == AutocorrFreqs(data)[..k]
        invariant autocorrNotes == old(autocorrNotes) + Labels(autocorrFreqs)
        invariant fftNotes == old(fftNotes) + Labels(fftFreqs) && |fftFreqs| == k
        invariant forall j | 0 <= j < k :: InFftRange(fftFreqs[j])
        invariant Valid()
        decreases lim - i
      {
        FrameStep(data, k, i, autocorrFreqs);
        var subdata := data[i..i + BUFFER_LEN];
        ghost var autocorrFreq := FreqFromAutocorr(subdata);
        LabelsAppend(autocorrFreqs, autocorrFreq);
        autocorrFreqs := autocorrFreqs + [autocorrFreq];
        ghost var fftFreq := LabelFrame(subdata);
        LabelsAppend(fftFreqs, fftFreq);
        InRangeAppend(fftFreqs, fftFreq);
        fftFreqs := fftFreqs + [fftFreq];
        i := i + BUFFER_LEN;
        k := k + 1;
      }
      FramesDone(data, k, autocorrFreqs);
    }

    /** One step of the loop: the frame's autocorrelation note and FFT note
        are pushed onto the two columns. */
    method LabelFrame(subdata: seq<real>) returns (ghost fftFreq: Freq)
      requires Valid() && |subdata| == BUFFER_LEN
      modifies this`autocorrNotes, this`fftNotes, fft`peak, fft`peakBand, fft.re, fft.im, fft.spectrum
      ensures Valid()
      ensures autocorrNotes == old(autocorrNotes) + [NoteFor(FreqFromAutocorr(subdata)).name]
      ensures fftNotes == old(fftNotes) + [NoteFor(fftFreq).name]
      ensures fftFreq == FreqFromSpectrum(fft.spectrum[..])
      ensures fft.Transformed(subdata, PeakTrack(old(fft.peak), old(fft.peakBand)))
      ensures InFftRange(fftFreq)
    {
      BufferLenPassesSizeGuard();
      var autocorrNote := GetNoteFromAutocorr(subdata);
      autocorrNotes := autocorrNotes + [autocorrNote];
      var fftNote := GetNoteFromFFT(fft, subdata);
      fftFreq := FreqFromSpectrum(fft.spectrum[..]);
      SpectrumFreqInRange(fft.spectrum[..]);
      fftNotes := fftNotes + [fftNote.value];
    }
  }
}
