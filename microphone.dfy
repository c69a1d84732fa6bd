/** The Microphone object of microphone.js: the flags that gate listening and
    recording, the capture of one audio frame per processing callback, and
    the getFreq / getNote / getNoteCents queries that dispatch to the two
    pitch detectors. The browser side (getUserMedia, the audio graph, the
    download of the recording) is left to the caller: `GotStream` and
    `AudioProcess` are the two callbacks it invokes. */
module Mic {
  import opened Wrappers
  import opened NoteTable
  import opened Autocorrelation
  import opened Fourier
  import opened Pitch
  import Dsp
  import Wav

  /** The strings the object throws. */
  datatype MicError =
    | NotInitialized          // startListening before gotStream
    | NotListening            // startRecording while not initialized or not processing
    | NullInput               // a query while not processing
    | FftFailed(FftError)     // thrown by fft.forward

  /** The `method` argument of the queries: 1 selects autocorrelation,
      2 the FFT; any other value makes the query return undefined. */
  const AUTOCORRELATION_METHOD: int := 1
  const FFT_METHOD: int := 2

  // ---------------------------------------------------------------------------
  // The three flags and their transitions
  // ---------------------------------------------------------------------------

  datatype Flags = Flags(initialized: bool, processing: bool, recording: bool)

  /** Recording needs listening, and listening needs an open stream. */
  predicate Consistent(f: Flags)
  {
    (f.recording ==> f.processing) && (f.processing ==> f.initialized)
  }

  /** `initialize` clears all three flags. */
  function InitializeFlags(f: Flags): (r: Flags)
    ensures Consistent(r) && !r.initialized && !r.processing && !r.recording
  {
    Flags(false, false, false)
  }

  /** `gotStream` marks the object initialized and touches nothing else. */
  function GotStreamFlags(f: Flags): (r: Flags)
    ensures r.initialized
    ensures r.processing == f.processing && r.recording == f.recording
    ensures Consistent(f) ==> Consistent(r)
  {
    f.(initialized := true)
  }

  /** `startListening` throws unless initialized, and otherwise turns on
      processing (a no-op when already on). */
  function StartListeningFlags(f: Flags): (r: Result<Flags, MicError>)
    ensures r.Failure? <==> !f.initialized
    ensures r.Failure? ==> r.error == NotInitialized
    ensures r.Success? ==> r.value.processing
    ensures r.Success? ==> r.value.initialized == f.initialized && r.value.recording == f.recording
    ensures Consistent(f) && r.Success? ==> Consistent(r.value)
  {
    if !f.initialized then Failure(NotInitialized)
    else if !f.processing then Success(f.(processing := true))
    else Success(f)
  }

  /** `stopListening` turns processing off, except while recording. */
  function StopListeningFlags(f: Flags): (r: Flags)
    ensures r.processing <==> f.processing && f.recording
    ensures r.initialized == f.initialized && r.recording == f.recording
    ensures Consistent(f) ==> Consistent(r)
  {
    if f.processing && !f.recording then f.(processing := false) else f
  }

  /** `startRecording` throws unless initialized and processing, and
      otherwise turns on recording. */
  function StartRecordingFlags(f: Flags): (r: Result<Flags, MicError>)
    ensures r.Failure? <==> !f.initialized || !f.processing
    ensures r.Failure? ==> r.error == NotListening
    ensures r.Success? ==> r.value.recording
    ensures r.Success? ==> r.value.initialized == f.initialized && r.value.processing == f.processing
    ensures Consistent(f) && r.Success? ==> Consistent(r.value)
  {
    if !f.initialized || !f.processing then Failure(NotListening)
    else if !f.recording then Success(f.(recording := true))
    else Success(f)
  }

  /** `stopRecording` turns recording off; it writes the file only when it
      was on. */
  function StopRecordingFlags(f: Flags): (r: Flags)
    ensures !r.recording
    ensures r.initialized == f.initialized && r.processing == f.processing
    ensures Consistent(f) ==> Consistent(r)
  {
    if f.recording then f.(recording := false) else f
  }

  /** Starting to listen and then stopping again, from an idle stream,
      returns to the idle state. */
  lemma ListenThenStopRestores(f: Flags)
    requires f.initialized && !f.processing && !f.recording
    ensures StartListeningFlags(f).Success?
    ensures StopListeningFlags(StartListeningFlags(f).value) == f
  {
  }

  /** Starting and stopping a recording while listening returns to the
      listening state. */
  lemma RecordThenStopRestores(f: Flags)
    requires f.initialized && f.processing && !f.recording
    ensures StartRecordingFlags(f).Success?
    ensures StopRecordingFlags(StartRecordingFlags(f).value) == f
  {
  }

  /** While recording, stopListening is ignored: the recording cannot lose
      its input. */
  lemma StopListeningKeepsRecording(f: Flags)
    requires Consistent(f) && f.recording
    ensures StopListeningFlags(f) == f
  {
  }

  /** Every start and stop is idempotent. */
  lemma TransitionsIdempotent(f: Flags)
    ensures StartListeningFlags(f).Success? ==>
      StartListeningFlags(StartListeningFlags(f).value) == StartListeningFlags(f)
    ensures StartRecordingFlags(f).Success? ==>
      StartRecordingFlags(StartRecordingFlags(f).value) == StartRecordingFlags(f)
    ensures StopListeningFlags(StopListeningFlags(f)) == StopListeningFlags(f)
    ensures StopRecordingFlags(StopRecordingFlags(f)) == StopRecordingFlags(f)
  {
  }

  /** From a fresh stream, listening makes recording possible, and listening
      again after initialize needs a new stream. */
  lemma StreamGatesEverything(f: Flags)
    ensures StartListeningFlags(GotStreamFlags(f)).Success?
    ensures StartRecordingFlags(StartListeningFlags(GotStreamFlags(f)).value).Success?
    ensures StartListeningFlags(InitializeFlags(f)).Failure?
    ensures StartRecordingFlags(InitializeFlags(f)).Failure?
  {
  }

  // ---------------------------------------------------------------------------
  // Captured audio
  // ---------------------------------------------------------------------------

  /** Both channels receive a copy of the same frame, so the file's samples
      come in equal pairs: sample i of the recording is written twice. */
  lemma {:induction false} RecordingIsDuplicatedMono(samples: seq<real>)
    ensures |Dsp.Interleaved(samples, samples)| == 2 * |samples|
    ensures forall i | 0 <= i < |samples| ::
      Dsp.Interleaved(samples, samples)[2 * i] == samples[i] &&
      Dsp.Interleaved(samples, samples)[2 * i + 1] == samples[i]
  {
    Dsp.InterleavedIndex(samples, samples);
  }

  // ---------------------------------------------------------------------------
  // The object
  // ---------------------------------------------------------------------------

  class Microphone {
    var initialized: bool
    var processing: bool
    var recording: bool
    var recordingLength: nat
    var leftChannel: seq<seq<real>>
    var rightChannel: seq<seq<real>>
    /** The last frame handed to the processing callback; empty until the
        first callback after `gotStream`. */
    var timeData: seq<real>
    var fft: FFT
    /** `Math.sqrt`, `Math.sin`, `Math.cos` and `Math.PI` for the FFTs the
        object builds. */
    const host: Host

    ghost predicate Valid()
      reads this, fft, fft.reverseTable
    {
      && Consistent(Flags(initialized, processing, recording))
      && fft.Valid() && fft.bufferSize == BUFFER_LEN
      && SqrtNonNegative(host.sqrt)
      && leftChannel == rightChannel
      && (forall k | 0 <= k < |leftChannel| :: |leftChannel[k]| == BUFFER_LEN)
      && recordingLength == |leftChannel| * BUFFER_LEN
    }

    function CurrentFlags(): Flags
      reads this
    {
      Flags(initialized, processing, recording)
    }

    /** `new Microphone()` followed by `initialize()`, before the browser
        grants the stream. */
    constructor (host: Host)
      requires SqrtNonNegative(host.sqrt)
      ensures Valid()
      ensures !initialized && !processing && !recording
      ensures recordingLength == 0 && leftChannel == [] && rightChannel == [] && timeData == []
      ensures this.host == host
    {
      initialized := false;
      processing := false;
      recording := false;
      recordingLength := 0;
      leftChannel := [];
      rightChannel := [];
      timeData := [];
      this.host := host;
      fft := new FFT(BUFFER_LEN, SAMPLE_RATE as real, host);
    }

    /** `initialize`: clears the flags and the recording; the stream request
        it then makes is answered by `GotStream`. */
    method Initialize()
      requires Valid()
      modifies this`initialized, this`processing, this`recording, this`recordingLength,
        this`leftChannel, this`rightChannel, this`timeData
      ensures Valid()
      ensures CurrentFlags() == InitializeFlags(old(CurrentFlags()))
      ensures recordingLength == 0 && leftChannel == [] && rightChannel == [] && timeData == []
    {
      initialized := false;
      processing := false;
      recording := false;
      recordingLength := 0;
      leftChannel := [];
      rightChannel := [];
      timeData := [];
    }

    /** `gotStream`: a fresh FFT of BUFFER_LEN points at SAMPLE_RATE, an
        empty frame, and the object marked initialized. */
    method GotStream()
      requires Valid()
      modifies this`fft, this`timeData, this`initialized
      ensures Valid()
      ensures CurrentFlags() == GotStreamFlags(old(CurrentFlags()))
      ensures timeData == []
      ensures fresh(fft) && fft.sampleRate == SAMPLE_RATE as real
    {
      timeData := [];
      fft := new FFT(BUFFER_LEN, SAMPLE_RATE as real, host);
      initialized := true;
    }

    /** `isInitialized`. */
    function IsInitialized(): (b: bool)
      reads this
      ensures b <==> CurrentFlags().initialized
    {
      if initialized then true else false
    }

    /** The processing callback: keeps the frame, and while recording
        appends a copy of it to both channels. */
    method AudioProcess(frame: seq<real>)
      requires Valid()
      requires |frame| == BUFFER_LEN
      modifies this`timeData, this`leftChannel, this`rightChannel, this`recordingLength
      ensures Valid()
      ensures timeData == frame
      ensures recording ==>
        && leftChannel == old(leftChannel) + [frame]
        && rightChannel == old(rightChannel) + [frame]
        && recordingLength == old(recordingLength) + BUFFER_LEN
      ensures !recording ==>
        leftChannel == old(leftChannel) && rightChannel == old(rightChannel) &&
        recordingLength == old(recordingLength)
    {
      timeData := frame;
      if recording {
        leftChannel := leftChannel + [frame];
        rightChannel := rightChannel + [frame];
        recordingLength := recordingLength + BUFFER_LEN;
      }
    }

    /** `startListening`. */
    method StartListening() returns (r: Outcome<MicError>)
      requires Valid()
      modifies this`processing
      ensures Valid()
      ensures StartListeningFlags(old(CurrentFlags())).Success? ==>
        r == Pass && CurrentFlags() == StartListeningFlags(old(CurrentFlags())).value
      ensures StartListeningFlags(old(CurrentFlags())).Failure? ==>
        r == Fail(StartListeningFlags(old(CurrentFlags())).error) && CurrentFlags() == old(CurrentFlags())
    {
      if !initialized {
        return Fail(NotInitialized);
      }
      if !processing {
        processing := true;
      }
      r := Pass;
    }

    /** `stopListening`. */
    method StopListening()
      requires Valid()
      modifies this`processing
      ensures Valid()
      ensures CurrentFlags() == StopListeningFlags(old(CurrentFlags()))
    {
      if processing && !recording {
        processing := false;
      }
    }

    /** `startRecording`. */
    method StartRecording() returns (r: Outcome<MicError>)
      requires Valid()
      modifies this`recording
      ensures Valid()
      ensures StartRecordingFlags(old(CurrentFlags())).Success? ==>
        r == Pass && CurrentFlags() == StartRecordingFlags(old(CurrentFlags())).value
      ensures StartRecordingFlags(old(CurrentFlags())).Failure? ==>
        r == Fail(StartRecordingFlags(old(CurrentFlags())).error) && CurrentFlags() == old(CurrentFlags())
    {
      if !initialized || !processing {
        return Fail(NotListening);
      }
      if !recording {
        recording := true;
      }
      r := Pass;
    }

    /** `stopRecording`: when recording, stops and writes every captured
        frame, of both channels, into a WAVE file. The captured frames are
        kept, so a later recording starts where this one ended. */
    method StopRecording() returns (file: Option<array<Wav.byte>>)
      requires Valid()
      modifies this`recording
      ensures Valid()
      ensures CurrentFlags() == StopRecordingFlags(old(CurrentFlags()))
      ensures file.Some? <==> old(recording)
      ensures file.Some? ==> fresh(file.value)
      ensures file.Some? ==>
        file.value[..] == Wav.WavFileAsWritten(Dsp.Interleaved(Wav.Concat(leftChannel), Wav.Concat(rightChannel)))
      ensures file.Some? ==> file.value.Length == Wav.HEADER_LEN + 4 * recordingLength
    {
      if !recording {
        return None;
      }
      recording := false;
      Wav.ConcatUniformLength(leftChannel, BUFFER_LEN);
      assert Wav.Concat(leftChannel) + Dsp.Zeros(0) == Wav.Concat(leftChannel);
      var written := Wav.WriteToWav(leftChannel, rightChannel, recordingLength);
      Dsp.InterleavedIndex(Wav.Concat(leftChannel), Wav.Concat(rightChannel));
      file := Some(written.value);
    }

    /** `getFreq(method)`: throws unless processing; method 1 is the
        autocorrelation estimate of the last frame, method 2 the FFT
        estimate (whose `forward` throws unless the frame has BUFFER_LEN
        samples); any other method returns undefined. */
    method GetFreq(methodNo: int) returns (r: Result<Option<Freq>, MicError>)
      requires Valid()
      modifies fft`peak, fft`peakBand, fft.re, fft.im, fft.spectrum
      ensures Valid()
      ensures !processing ==> r == Failure(NullInput)
      ensures processing && methodNo == AUTOCORRELATION_METHOD ==>
        r == Success(Some(FreqFromAutocorr(timeData)))
      ensures processing && methodNo == FFT_METHOD && |timeData| != BUFFER_LEN ==>
        r == Failure(FftFailed(BufferSizeMismatch(BUFFER_LEN, |timeData|)))
      ensures processing && methodNo == FFT_METHOD && |timeData| == BUFFER_LEN ==>
        r == Success(Some(FreqFromSpectrum(fft.spectrum[..])))
      ensures processing && methodNo != AUTOCORRELATION_METHOD && methodNo != FFT_METHOD ==>
        r == Success(None)
      ensures processing && methodNo == FFT_METHOD && |timeData| == BUFFER_LEN ==>
        fft.Transformed(timeData, PeakTrack(old(fft.peak), old(fft.peakBand)))
      ensures r.Failure? || methodNo != FFT_METHOD ==> unchanged(fft, fft.re, fft.im, fft.spectrum)
    {
      if !processing {
        return Failure(NullInput);
      }
      if methodNo == AUTOCORRELATION_METHOD {
        var f := ComputeFreqFromAutocorr(timeData);
        r := Success(Some(f));
      } else if methodNo == FFT_METHOD {
        BufferLenPassesSizeGuard();
        var f := ComputeFreqFromFFT(fft, timeData);
        if f.Failure? {
          return Failure(FftFailed(f.error));
        }
        r := Success(Some(f.value));
      } else {
        r := Success(None);
      }
    }

    /** `getNote(method)`: the same guard and dispatch, returning the name of
        the matched note. */
    method GetNote(methodNo: int) returns (r: Result<Option<string>, MicError>)
      requires Valid()
      modifies fft`peak, fft`peakBand, fft.re, fft.im, fft.spectrum
      ensures Valid()
      ensures !processing ==> r == Failure(NullInput)
      ensures processing && methodNo == AUTOCORRELATION_METHOD ==>
        r == Success(Some(NoteFor(FreqFromAutocorr(timeData)).name))
      ensures processing && methodNo == FFT_METHOD && |timeData| != BUFFER_LEN ==>
        r == Failure(FftFailed(BufferSizeMismatch(BUFFER_LEN, |timeData|)))
      ensures processing && methodNo == FFT_METHOD && |timeData| == BUFFER_LEN ==>
        r == Success(Some(NoteFor(FreqFromSpectrum(fft.spectrum[..])).name))
      ensures processing && methodNo != AUTOCORRELATION_METHOD && methodNo != FFT_METHOD ==>
        r == Success(None)
      ensures processing && methodNo == FFT_METHOD && |timeData| == BUFFER_LEN ==>
        fft.Transformed(timeData, PeakTrack(old(fft.peak), old(fft.peakBand)))
      ensures r.Failure? || methodNo != FFT_METHOD ==> unchanged(fft, fft.re, fft.im, fft.spectrum)
    {
      if !processing {
        return Failure(NullInput);
      }
      if methodNo == AUTOCORRELATION_METHOD {
        var name := GetNoteFromAutocorr(timeData);
        r := Success(Some(name));
      } else if methodNo == FFT_METHOD {
        BufferLenPassesSizeGuard();
        var name := GetNoteFromFFT(fft, timeData);
        if name.Failure? {
          return Failure(FftFailed(name.error));
        }
        r := Success(Some(name.value));
      } else {
        r := Success(None);
      }
    }

    /** `getNoteCents(method)`: the same guard and dispatch; the result
        pairs the matched note with the frequency it was matched from, the
        two inputs of the cents offset. */
    method GetNoteCents(methodNo: int) returns (r: Result<Option<(Note, Freq)>, MicError>)
      requires Valid()
      modifies fft`peak, fft`peakBand, fft.re, fft.im, fft.spectrum
      ensures Valid()
      ensures !processing ==> r == Failure(NullInput)
      ensures processing && methodNo == AUTOCORRELATION_METHOD ==>
        r == Success(Some((NoteFor(FreqFromAutocorr(timeData)), FreqFromAutocorr(timeData))))
      ensures processing && methodNo == FFT_METHOD && |timeData| != BUFFER_LEN ==>
        r == Failure(FftFailed(BufferSizeMismatch(BUFFER_LEN, |timeData|)))
      ensures processing && methodNo == FFT_METHOD && |timeData| == BUFFER_LEN ==>
        r == Success(Some((NoteFor(FreqFromSpectrum(fft.spectrum[..])), FreqFromSpectrum(fft.spectrum[..]))))
      ensures processing && methodNo != AUTOCORRELATION_METHOD && methodNo != FFT_METHOD ==>
        r == Success(None)
      ensures processing && methodNo == FFT_METHOD && |timeData| == BUFFER_LEN ==>
        fft.Transformed(timeData, PeakTrack(old(fft.peak), old(fft.peakBand)))
      ensures r.Failure? || methodNo != FFT_METHOD ==> unchanged(fft, fft.re, fft.im, fft.spectrum)
    {
      var f := GetFreq(methodNo);
      if f.Failure? {
        return Failure(f.error);
      }
      match f.value {
        case None =>
          r := Success(None);
        case Some(freq) =>
          var note := MatchFreq(freq);
          r := Success(Some((note, freq)));
      }
    }
  }
}
