# dart-mic pitch engine, modelled in Dafny

dart-mic is a browser microphone library. Its `Microphone` object has three
jobs:

- It opens the microphone and keeps the last frame of 1024 samples that the
  audio graph delivers.
- It estimates the frequency of that frame in one of two ways: the
  autocorrelation peak, or the FFT peak refined by Jain's three-point
  interpolation. It then names the nearest note in a 75-entry table that
  runs from A#1 to C8.
- It can record the frames it receives and save them as a 16-bit stereo
  PCM WAVE file.

The offline test harness, `test_harness/test_driver.js`, does two things:

- It cuts a decoded channel into frames and labels each frame with both
  detectors.
- It carries copies of the pitch functions and the parts of the DSP.js
  library they use: `FFT`, `FourierTransform`, and the `DSP` array helpers.

The model has one module per part.

| module (file) | what it holds |
|---|---|
| `NoteTable` (notes.dfy) | The note table and `matchNote`. |
| `Autocorrelation` (autocorrelation.dfy) | `autocorrelate` and `getPeakPeriodicityIndex`. |
| `Fourier` (fft.dfy) | The `FFT` object: its bit-reversal table, `forward` and `calculateSpectrum`. |
| `Pitch` (pitch.dfy) | Both estimators, `jainsMethodInterpolate`, and the note lookup on their results. |
| `Dsp` (dsp.dfy) | `DSP.invert`, `interleave`, `deinterleave`, `mixSampleBuffers` and `Peak`. |
| `Wav` (wav.dfy) | `mergeBuffers`, `interleave`, `writeUTFBytes` and the byte layout `writeToWav` produces. |
| `Mic` (microphone.dfy) | The `Microphone` object: its flags, the recording buffers, and the queries. |
| `TestDriver` (test_driver.dfy) | The frame loop of `finishedLoading`. |

JavaScript numbers are modelled as follows:

- Samples are `real`.
- The estimators return `Freq`, which is one of:
  - a finite integer after `Math.round`;
  - `Infinity`: autocorrelation over a frame shorter than 1024 samples, where every lag sum is `NaN`, the peak index is 0 and `44100 / 0` follows;
  - `NaN`: Jain's interpolation at the last bin, or on a zero peak.
- `matchNote` is given its JavaScript meaning on all three.
- Thrown strings become `Failure` values: `Result`, `Outcome` and `Option` are in wrappers.dfy.
- `Math.sqrt`, `Math.sin`, `Math.cos` and `Math.PI` are passed in as a `Host` value. The model assumes only that `sqrt` is never negative.

The pitch functions in test_driver.js (lines 177-279) are the same code as
in microphone.js, except that they take the frame as a parameter rather
than reading `timeData`. The same members model both copies, and the
table cites the microphone.js lines. The copies sit at these lines of
test_driver.js: `getNoteFromAutocorr` 177-181, `autocorrelate` 183-193,
`getPeakPeriodicityIndex` 195-208, `computeFreqFromAutocorr` 210-214,
`getNoteFromFFT` 216-220, `computeFreqFromFFT` 222-239,
`jainsMethodInterpolate` 241-257 and `matchNote` 259-279.

Where the written description of the library and the code disagree, the
model follows the code:

- The table has 75 entries, not 84.
- An exact tie between two neighbouring notes goes to the higher note,
  because the scan compares with `<=` (microphone.js:253).
- The comments on `getFreq`, `getNote` and `getNoteCents`
  (microphone.js:287, 304 and 321) say the method argument defaults to 1,
  but the code has no default: called without an argument, each compares
  `undefined` with 1 and 2 and returns `undefined`. The model follows the
  code, so any selector other than 1 or 2 gives `undefined`.

## Model

| member | source | states |
|---|---|---|
| NoteTable.NotesAdjacentAscending | microphone.js:77-95 | The table has 75 entries, and each frequency is below the next one in insertion order. |
| NoteTable.NotesStrictlyAscending | microphone.js:77-95 | The table frequencies strictly increase: entry i is below entry j whenever i < j. |
| NoteTable.Abs | microphone.js:253 | `Math.abs`: the result is non-negative and equals x or -x. |
| NoteTable.Best | microphone.js:246-265 | The index a full `<=` scan of the first n entries keeps lies inside the scanned part. |
| NoteTable.BestIsLastClosest | microphone.js:252-256 | After a full `<=` scan, the kept entry is at least as close as every scanned entry and strictly closer than every later scanned entry. |
| NoteTable.BestStableAfterOvershoot | microphone.js:259-261 | On an ascending table, breaking at the first entry above freq gives the same answer as scanning the whole table. |
| NoteTable.NearestIndex | microphone.js:246-265 | The index `matchNote` picks is inside the table. |
| NoteTable.MatchNote | microphone.js:246-265 | The early-breaking scan returns the entry at `NearestIndex(freq)`, name and frequency together. |
| NoteTable.NearestIsClosest | microphone.js:246-265 | The returned entry is a table entry. No entry is strictly closer to freq, and every later entry is strictly farther. |
| NoteTable.NearestIsUnique | microphone.js:246-265 | Conversely, an index with those two properties is the one `matchNote` returns. |
| NoteTable.SortedHit | microphone.js:252-261 | On any strictly ascending table, a table frequency selects its own entry. |
| NoteTable.SortedTie | microphone.js:252-261 | On any strictly ascending table, a frequency exactly midway between two neighbours selects the higher one. |
| NoteTable.SortedBelowFirst | microphone.js:252-261 | On any strictly ascending table, a frequency at or below the first entry selects the first entry. |
| NoteTable.SortedAboveLast | microphone.js:252-261 | On any strictly ascending table, a frequency at or above the last entry selects the last entry. |
| NoteTable.TableHit | microphone.js:77-95 | Each of the 75 table frequencies is matched to its own note. |
| NoteTable.TieGoesToHigher | microphone.js:253-256 | A frequency exactly midway between two neighbouring notes is matched to the higher note. |
| NoteTable.ClampLow | microphone.js:247-248 | Every frequency up to 58.2705 Hz is matched to ("A#1", 58.2705). |
| NoteTable.ClampHigh | microphone.js:246-265 | Every frequency from 4186.01 Hz up is matched to ("C8", 4186.01). |
| Autocorrelation.MaxPeakSearchIsExact | microphone.js:61-67 | MAX_PEAK_SEARCH = 44100 / 60 is exactly 735, an integer below BUFFER_LEN. |
| Autocorrelation.AutocorrelationOf | microphone.js:346-356 | The profile of a frame has BUFFER_LEN lag sums. |
| Autocorrelation.Autocorrelate | microphone.js:346-356 | The double loop returns BUFFER_LEN sums with sums[i] = Σ_{j < BUFFER_LEN-i} data[j]·data[j+i]. |
| Autocorrelation.EnergyNonNegative | microphone.js:350-353 | The lag-0 sum is a sum of squares, so it is never negative. |
| Autocorrelation.ProfileStartsNonNegative | microphone.js:346-356 | sums[0] ≥ 0 for every frame. |
| Autocorrelation.LagSumPrefix | microphone.js:350-353 | A lag sum depends only on the samples below n + lag. |
| Autocorrelation.ReadsOnlyFrame | microphone.js:346-356 | The profile reads only the first BUFFER_LEN samples, so a longer buffer gives the profile of its first frame. |
| Autocorrelation.SkipNonNegative | microphone.js:364 | The first skipping loop stops between its start and the end of the profile. |
| Autocorrelation.SkipNegative | microphone.js:365 | The second skipping loop stops between its start and the end of the profile. |
| Autocorrelation.SkipNonNegativeRun | microphone.js:364 | Every sum the first loop skips is ≥ 0, and the loop stops at the end or at a negative sum. |
| Autocorrelation.SkipNegativeRun | microphone.js:365 | Every sum the second loop skips is < 0, and the loop stops at the end or at a sum ≥ 0. |
| Autocorrelation.SkipAllNonNegative | microphone.js:364 | A profile with no negative sum after i is skipped to its end. |
| Autocorrelation.ArgMaxFrom | microphone.js:366-372 | The arg-max loop's index lies in its range. |
| Autocorrelation.ArgMaxFromIsEarliestMax | microphone.js:366-372 | The arg-max loop keeps the EARLIEST position of the largest sum, because it replaces only on a strictly larger sum. |
| Autocorrelation.GetPeakPeriodicityIndex | microphone.js:362-375 | The three loops return `PeakIndexOf(sums)`. |
| Autocorrelation.PeakIndexOf | microphone.js:362-375 | The lag returned is never before the point where the search starts, never beyond BUFFER_LEN, and below 735 whenever the search starts below 735. |
| Autocorrelation.PeakSearchStartPositive | microphone.js:364-365 | The search start s (the end of the non-negative run, then of the negative run) is in [1, BUFFER_LEN]. |
| Autocorrelation.PeakIndexSpec | microphone.js:362-375 | The sums before s form a run ≥ 0 followed by a run < 0, and sums[s] ≥ 0 unless s = BUFFER_LEN. If s ≥ 735 the result is s. Otherwise it is the earliest arg-max of sums on [s, 735). In every case the result is in [1, BUFFER_LEN]. |
| Autocorrelation.PeakIndexInRange | microphone.js:362-385 | The peak lag is in [1, BUFFER_LEN], so `SAMPLE_RATE / maxIndex` never divides by zero on a full frame. |
| Autocorrelation.SilentLagSum | microphone.js:350-353 | Every lag sum of an all-zero frame is 0. |
| Autocorrelation.SilentFramePeak | microphone.js:362-375 | An all-zero frame has its peak lag at BUFFER_LEN. |
| Pitch.JsRound | microphone.js:384 | `Math.round`: the result is within one half of x, and halves round up. |
| Pitch.JsRoundMonotone | microphone.js:439 | `Math.round` is monotone. |
| Pitch.NoteFor | microphone.js:246-265 | `matchNote` on any estimator result (finite, Infinity or NaN) gives a table entry. |
| Pitch.NonFiniteNotesAtTableEnds | microphone.js:246-265 | Infinity is matched to C8 and NaN to A#1, the same notes as every frequency ≥ 4187 Hz and ≤ 58 Hz respectively. |
| Pitch.MatchFreq | microphone.js:246-265 | The scan on an estimator result returns `NoteFor` of it. |
| Pitch.AutocorrFreqRange | microphone.js:381-385 | The estimate is Infinity exactly when the frame is shorter than BUFFER_LEN. A full frame gives a whole number of Hz in [43, 44100]. |
| Pitch.FreqFromAutocorr | microphone.js:381-385 | The autocorrelation estimate is Infinity exactly when the frame is shorter than BUFFER_LEN, and it is never NaN. |
| Pitch.QuotientRange | microphone.js:384 | Math.round(44100 / lag) is in [43, 44100] for every lag in [1, 1024]. |
| Pitch.AutocorrReadsOneFrame | microphone.js:381-385 | The estimate depends only on the first BUFFER_LEN samples. |
| Pitch.SilentFrameFreq | microphone.js:381-396 | A silent frame is estimated at 43 Hz and named "A#1". |
| Pitch.ComputeFreqFromAutocorr | microphone.js:381-385 | The estimator returns `FreqFromAutocorr(data)`: `Math.round(SAMPLE_RATE / peak lag)`, or Infinity on a short frame. |
| Pitch.GetNoteFromAutocorr | microphone.js:392-396 | Returns the name of `matchNote` of the autocorrelation estimate. |
| Pitch.BufferLenPassesSizeGuard | microphone.js:64-70 | MY_FFT_SIZE = BUFFER_LEN = 1024 passes `forward`'s power-of-two guard. |
| Pitch.SpectrumPeakIndex | microphone.js:428-435 | The arg-max loop over the spectrum returns `SpectrumPeakOf(spectrum)`. |
| Pitch.SpectrumPeakIsEarliestMax | microphone.js:428-435 | That index is the earliest bin holding the largest spectrum value. |
| Pitch.LeftInterpolation | microphone.js:457-461 | The `m1 > m3` branch lies in [maxIndex-1, maxIndex). It is at least maxIndex-½ when the peak is no smaller than its left neighbour. |
| Pitch.RightInterpolation | microphone.js:462-466 | The other branch lies in [maxIndex, maxIndex+1). It is at most maxIndex+½ when the right neighbour is no larger than the peak. |
| Pitch.FractionBounds | microphone.js:459-465 | d = a/(1+a) is in [0, 1) for a ≥ 0. It is ≥ ½ exactly when a ≥ 1, and ≤ ½ exactly when a ≤ 1. |
| Pitch.JainsStaysNearPeak | microphone.js:451-467 | A finite interpolated bin lies within one bin of the peak, never below 0, and on the left exactly when the left neighbour is larger. For a local maximum it moves by at most half a bin. |
| Pitch.JainsMethodInterpolate | microphone.js:451-467 | A finite interpolated bin needs a right neighbour of the peak. It is never below 0 and lies within one bin of the peak. At the last bin, or past the end, the result is NaN. |
| Pitch.FftFreqRange | microphone.js:423-440 | A finite FFT estimate is between 0 and the rounded frequency of the last bin. |
| Pitch.FreqFromSpectrum | microphone.js:423-440 | The FFT estimate is never Infinity, a finite one is never negative, and a spectrum of at most one bin gives NaN. |
| Pitch.FftFreqNaN | microphone.js:423-467 | The FFT estimate is NaN exactly when the peak bin is the last bin, or when the peak is 0 and the left neighbour is not larger than the right. |
| Pitch.ComputeFreqFromFFT | microphone.js:423-440 | `forward`'s errors are passed on, and the FFT is left unchanged. Otherwise the result is `FreqFromSpectrum` of the refreshed spectrum. The FFT is left `Transformed(data, …)`: its zero-frequency bin is the sum of the frame, and its spectrum and peak are those of the transformed buffers. |
| Pitch.InterpolatedFreq | microphone.js:437-439 | `Math.round(interpolatedBin * FFT_FREQ_RES)`, or NaN when the interpolation is NaN. |
| Pitch.GetNoteFromFFT | microphone.js:474-478 | The same errors, with the FFT unchanged. Otherwise the name of `matchNote` of the FFT estimate, with the FFT left `Transformed(data, …)`. |
| Fourier.Pow2IsPowerOfTwo | test_harness/test_driver.js:705-707 | 2^k passes the power-of-two test, and its log2 is k. |
| Fourier.Log2 | test_harness/test_driver.js:705 | The floor of log2 of a power of two n satisfies 2^k = n. |
| Fourier.BitRevBound | test_harness/test_driver.js:659-676 | A k-bit reversal is below 2^k. |
| Fourier.BitRevZero | test_harness/test_driver.js:662 | The reversal of 0 is 0, the value the fresh Uint32Array holds. |
| Fourier.BitRevShift | test_harness/test_driver.js:669-676 | The doubling rule: the reversal of i + 2^m is the reversal of i plus 2^(k-1-m). |
| Fourier.BitRevDouble | test_harness/test_driver.js:659-676 | A (k-1)-bit index reversed over k bits is twice its (k-1)-bit reversal. |
| Fourier.BitRevInvolution | test_harness/test_driver.js:659-676 | Bit reversal is its own inverse, so the table is a permutation of [0, N). |
| Fourier.Pow2Add | test_harness/test_driver.js:725-756 | 2^(a+b) = 2^a · 2^b, which splits the buffer into the stages' blocks. |
| Fourier.PairInRange | test_harness/test_driver.js:738-739 | When the size is a multiple of 2·halfSize, the partner i + halfSize of every pair top i = fftStep (mod 2·halfSize) below the size is below it too. |
| Fourier.PassSizes | test_harness/test_driver.js:726-756 | Before a pass with halfSize = 2^s < 2^k = bufferSize, the size is a whole number of blocks of 2·halfSize, the next halfSize. |
| Fourier.LastPassSize | test_harness/test_driver.js:726 | The passes stop with halfSize equal to the size. |
| Fourier.StageStart | test_harness/test_driver.js:736-737 | Before the first butterfly of a step no index has changed, and no pair top lies below fftStep. |
| Fourier.StageStep | test_harness/test_driver.js:738-749 | One butterfly at the next pair top i extends the step's state over the block of 2·halfSize starting at i: all pair tops below it hold their butterflies, every other index is unchanged. |
| Fourier.SumSplit | test_harness/test_driver.js:726-757 | The sum of a slice splits at any point inside it. |
| Fourier.SumConcat | test_harness/test_driver.js:721-724 | The sum of a concatenation is the sum of its parts. |
| Fourier.SumRemove | test_harness/test_driver.js:721-724 | Removing one entry lowers the sum by that entry. |
| Fourier.SumZeros | test_harness/test_driver.js:723 | The zeroed `imag` buffer sums to 0. |
| Fourier.SumPermuted | test_harness/test_driver.js:721-724 | Reading a sequence through a bijection of its indices keeps its sum. |
| Fourier.BitReversedSum | test_harness/test_driver.js:721-724 | Copying the buffer in bit-reversed order keeps its sum, because the table is its own inverse. |
| Fourier.BlockSumsStart | test_harness/test_driver.js:721-726 | Before the first pass, each entry is the sum of its own one-entry block. |
| Fourier.BlockSumsDouble | test_harness/test_driver.js:736-749 | The butterflies of fftStep 0, whose twiddle factor is exactly 1, leave in the first entry of every block of 2·halfSize the sum of that block's input. |
| Fourier.BlockSumsDoubleAt | test_harness/test_driver.js:739-746 | The same for one block: its sum is the sums of its two halves added. |
| Fourier.BlockSumsKept | test_harness/test_driver.js:735-749 | The butterflies of fftStep ≥ 1 never touch the first entry of a block of 2·halfSize. |
| Fourier.BlockSumsWhole | test_harness/test_driver.js:726-757 | Once one block covers the buffer, entry 0 holds the sum of the input. |
| Fourier.Magnitudes | test_harness/test_driver.js:581-591 | One magnitude per visited bin. |
| Fourier.MagnitudesNonNegative | test_harness/test_driver.js:581-584 | Every magnitude (2/N)·sqrt(re²+im²) is ≥ 0. |
| Fourier.PeakFoldSpec | test_harness/test_driver.js:586-589 | The tracked peak never decreases and bounds every magnitude seen. If it rose, peakBand is the first bin where the new peak was reached. If it did not rise, the pair is unchanged. |
| Fourier.PeakFoldAppend | test_harness/test_driver.js:581-591 | Tracking over a longer run continues from the pair reached on its prefix. |
| Fourier.PeakFoldPrefix | test_harness/test_driver.js:581-591 | The tracked pair depends only on the magnitudes visited. |
| Fourier.FFT.constructor | test_harness/test_driver.js:659-685 | Zeroed working buffers, a zeroed spectrum of bufferSize/2 bins, peak = 0 and peakBand = 0, the twiddle tables, and a reverse table holding the bit reversal of each index when the size is a power of two. |
| Fourier.FFT.BuildReverseTable | test_harness/test_driver.js:662-676 | For N = 2^k the doubling loop leaves reverseTable[i] = the k-bit reversal of i. |
| Fourier.FFT.ExtendReverseTable | test_harness/test_driver.js:670-672 | One pass writes table[i + limit] = table[i] + bit for i < limit and keeps the first half. |
| Fourier.FFT.DoubledReverseTable | test_harness/test_driver.js:669-676 | A pass extends a correct half table to a correct table twice as long. |
| Fourier.FFT.Forward | test_harness/test_driver.js:695-760 | Throws "Invalid buffer size" exactly when the size is not a power of two (0 passes, as in JavaScript). Otherwise it throws on a length mismatch, changing nothing. On success the FFT is `Transformed(buffer, …)`: `real[0]` is the sum of the input samples and `imag[0]` is 0 (the zero-frequency term of the discrete Fourier transform), the spectrum holds the magnitudes of the transformed buffers, and (peak, peakBand) continues from its previous value. |
| Fourier.FFT.BitReverseCopy | test_harness/test_driver.js:721-724 | real[i] = buffer[reverseTable[i]] and imag[i] = 0, with every table entry inside the buffer. |
| Fourier.FFT.Butterflies | test_harness/test_driver.js:726-757 | After all passes, bin 0 of `real` and `imag` holds the sum of the bit-reversed input, the zero-frequency term of the discrete Fourier transform. |
| Fourier.FFT.ButterflyPass | test_harness/test_driver.js:727-756 | One pass turns blocks of halfSize that hold their input sums at their first entry into blocks of 2·halfSize that do. |
| Fourier.FFT.ButterflyStage | test_harness/test_driver.js:736-749 | Every pair (j, j + halfSize) with j = fftStep (mod 2·halfSize) becomes (x[j] + w·x[j+halfSize], x[j] − w·x[j+halfSize]) for the twiddle factor w, computed from the values before the step. Every other index is unchanged. |
| Fourier.FFT.Butterfly | test_harness/test_driver.js:739-746 | One butterfly: the pair at i and i + halfSize becomes (x[i] + t, x[i] − t) with t = w·x[i + halfSize]. Nothing else changes. |
| Fourier.FFT.CalculateSpectrum | test_harness/test_driver.js:571-592 | The spectrum holds bufferSize/2 magnitudes. The peak pair is folded over the (bufferSize+1)/2 bins the loop visits, starting from its old value. |
| Fourier.FFT.SpectrumLoop | test_harness/test_driver.js:581-591 | The loop body over the copied locals gives the same spectrum and peak pair. |
| Dsp.Invert | test_harness/test_driver.js:400-406 | Negates every element in place and returns the same array. |
| Dsp.NegatedTwice | test_harness/test_driver.js:400-406 | Inverting twice restores the buffer. |
| Dsp.Peak | test_harness/test_driver.js:537-545 | The loop returns `PeakOf(buffer)`. |
| Dsp.PeakSpec | test_harness/test_driver.js:537-545 | Peak is 0 for an empty buffer. Otherwise it is at least the absolute value of every sample and equal to the absolute value of some sample. |
| Dsp.PeakOf | test_harness/test_driver.js:537-545 | The running peak is never negative. |
| Dsp.PeakZeroIffSilent | test_harness/test_driver.js:537-545 | Peak is 0 exactly when every sample is 0. |
| Dsp.PeakOfNegated | test_harness/test_driver.js:537-545 | Inverting a buffer does not change its peak. |
| Dsp.Interleave | test_harness/test_driver.js:416-429 | Throws exactly when the lengths differ. Otherwise it returns a fresh array of the two channels interleaved. |
| Dsp.InterleavedIndex | test_harness/test_driver.js:424-427 | The interleaved buffer has 2n samples, with left[i] at 2i and right[i] at 2i+1. |
| Dsp.Interleaved | test_harness/test_driver.js:416-429 | The interleaving of two channels of n samples has 2n samples. |
| Dsp.InterleavedEqual | test_harness/test_driver.js:416-429 | Any buffer with that layout is the interleaving. |
| Dsp.SplitInterleaved | test_harness/test_driver.js:438-475 | Deinterleaving an interleaved buffer gives back left (LEFT) and right (RIGHT). |
| Dsp.InterleaveSplit | test_harness/test_driver.js:416-475 | Interleaving the two halves of an even-length buffer restores it. |
| Dsp.MixDownOfInterleaved | test_harness/test_driver.js:441-446 | MIX of an interleaved buffer is (left[i]+right[i])/2. |
| Dsp.Deinterleaver.constructor | test_harness/test_driver.js:438-439 | The closure starts with no cached arrays, modelled as empty ones. |
| Dsp.Deinterleaver.Deinterleave | test_harness/test_driver.js:438-475 | It fails exactly on an unknown channel. It returns the cached left/right/mix array, filled with the even samples, the odd samples or the averages. The three caches are reallocated (zeroed) exactly when buffer.length/2 differs from the cached length, and are otherwise kept. The other two caches keep their contents. |
| Dsp.FillFrom | test_harness/test_driver.js:441-460 | The channel loops of `deinterleave` (MIX, LEFT, RIGHT): the channel cache ends up holding exactly the given values. |
| Dsp.MixSampleBuffers | test_harness/test_driver.js:499-507 | A fresh array of length b1.length with out[i] = b1[i] ± b2[i]/volumeCorrection. |
| Dsp.MixNegatedIsMixOfInverted | test_harness/test_driver.js:499-507 | Mixing with negate is mixing with the inverted second buffer. |
| Dsp.MixWithOwnInversionCancels | test_harness/test_driver.js:499-507 | Mixing a buffer with its own inversion at volume 1 gives silence, whose peak is 0. |
| Wav.Store | microphone.js:581 | `result.set(buffer, offset)` writes the values at offset and keeps everything else. |
| Wav.ConcatUniformLength | microphone.js:575-585 | Chunks of equal size concatenate to count × size samples. |
| Wav.ConcatUniform | microphone.js:575-585 | Sample j of chunk k sits at k·size + j of the concatenation. |
| Wav.ConcatPrefixLength | microphone.js:578-583 | The merged prefix never outgrows the whole concatenation. |
| Wav.StoreIntoZeros | microphone.js:581-582 | Storing the next chunk after the merged prefix extends the prefix and leaves zeros behind it. |
| Wav.MergeBuffers | microphone.js:575-585 | Throws exactly when the chunks hold more than recordingLength samples. Otherwise the result is their concatenation padded with zeros to recordingLength. |
| Wav.InterleaveChannels | microphone.js:556-568 | Equal-length channels are interleaved, left[i] at 2i and right[i] at 2i+1. |
| Wav.ReadLE16 | microphone.js:519-525 | A little-endian 16-bit field reads back as the value mod 2^16. |
| Wav.ReadLE32 | microphone.js:514-528 | A little-endian 32-bit field reads back as the value mod 2^32. |
| Wav.Trunc | microphone.js:535 | The conversion to integer truncates toward zero. |
| Wav.SampleRoundTrip | microphone.js:535 | A sample in [-1, 1] stored by `setInt16` reads back as trunc(x·0x7FFF), within 1 of the scaled value. |
| Wav.PcmData | microphone.js:534-537 | Two bytes per sample. |
| Wav.PcmDataLayout | microphone.js:534-537 | Sample i occupies bytes 2i and 2i+1 of the data. |
| Wav.EncodeHeader | microphone.js:513-528 | The header is 44 bytes. |
| Wav.RiffSizeRoundTrip | microphone.js:514 | The RIFF size at byte 4 reads back mod 2^32. |
| Wav.DataSizeRoundTrip | microphone.js:528 | The data size at byte 40 reads back mod 2^32. |
| Wav.FmtLayoutRoundTrip | microphone.js:518-521 | The fmt chunk size, audio format and channel count read back from bytes 16, 20 and 22. |
| Wav.FmtRatesRoundTrip | microphone.js:522-525 | The sample rate, byte rate, block align and bits per sample read back from bytes 24, 28, 32 and 34. |
| Wav.HeaderRoundTrip | microphone.js:513-528 | Decoding an encoded header whose fields fit gives back the header, whatever follows it. |
| Wav.RecordingFormatConsistent | microphone.js:519-525 | The fields written agree with each other: block align = channels·bits/8 = 4, and byte rate = sample rate·block align. |
| Wav.RecordingHeader | microphone.js:513-528 | Corrected: the RIFF size is the data size plus the 36 header bytes after the RIFF chunk header. The data size is 2 bytes per sample, in the recording format. |
| Wav.RecordingHeaderAsWritten | microphone.js:513-528 | As written: the RIFF size is the data size plus all 44 header bytes. The data size is 2 bytes per sample, in the recording format. |
| Wav.WavFile | microphone.js:509-537 | Corrected: the file is 44 + 2L bytes. |
| Wav.WavFileAsWritten | microphone.js:509-537 | As written: the file is 44 + 2L bytes. |
| Wav.WavFileHeader | microphone.js:509-528 | Corrected: the file is 44 + 2L bytes. Its header decodes to the recording format, RIFF size = file length − 8 and data size = file length − 44. |
| Wav.RiffSizeAsWrittenIsFileLength | microphone.js:509-528 | As written: the RIFF size field holds the whole file length, not file length − 8. The header still decodes to the recording format, and the data size is the file length − 44. |
| Wav.AsWrittenDiffersOnlyInRiffSize | microphone.js:514 | The written file is the corrected file with only bytes 4-7 overwritten, and the RIFF size there reads 8 more. |
| Wav.SampleAt | microphone.js:532-537 | Sample i of the written file is at byte 44 + 2i and reads back as trunc(sample·0x7FFF). |
| Wav.WriteUtfBytes | microphone.js:590-595 | Writes the character codes of the string at offset and nothing else. |
| Wav.WriteRiffDescriptor | microphone.js:513-515 | Writes 'RIFF', the size and 'WAVE' at bytes 0-11. |
| Wav.WriteFmtSubchunk | microphone.js:517-525 | Writes the fmt sub-chunk at bytes 12-35. |
| Wav.WriteDataSubchunkHeader | microphone.js:527-528 | Writes 'data' and the data size at bytes 36-43. |
| Wav.WriteHeader | microphone.js:513-528 | The three writes together lay down the header as written: RIFF size 44 + 2n, the recording format, data size 2n. The rest of the view is untouched. |
| Wav.WriteSamples | microphone.js:531-537 | Fills bytes 44 onward with the PCM data of the samples. |
| Wav.WriteFile | microphone.js:509-537 | The DataView ends up holding exactly the file as written, `WavFileAsWritten(interleaved)`, with the RIFF size field at the file length. |
| Wav.WriteToWav | microphone.js:501-537 | Fails exactly when either channel holds more than recordingLength samples. Otherwise it returns the WAVE file as written for the two merged, zero-padded channels, interleaved. |
| Mic.InitializeFlags | microphone.js:56-76 | `initialize` clears all three flags. |
| Mic.GotStreamFlags | microphone.js:121-150 | `gotStream` sets `initialized` and leaves the other two flags. |
| Mic.StartListeningFlags | microphone.js:180-192 | Throws "Not initialized" exactly when not initialized. Otherwise `processing` is set. |
| Mic.StopListeningFlags | microphone.js:198-206 | `processing` survives exactly when it was on and recording is on. Nothing else changes. |
| Mic.StartRecordingFlags | microphone.js:212-222 | Throws exactly when not initialized or not processing. Otherwise `recording` is set. |
| Mic.StopRecordingFlags | microphone.js:228-234 | `recording` is cleared. Nothing else changes. |
| Mic.ListenThenStopRestores | microphone.js:180-206 | Starting and then stopping listening, while not recording, returns to the starting flags. |
| Mic.RecordThenStopRestores | microphone.js:212-234 | Starting and then stopping recording returns to the starting flags. |
| Mic.StopListeningKeepsRecording | microphone.js:198-206 | `stopListening` while recording changes nothing. |
| Mic.TransitionsIdempotent | microphone.js:180-234 | Repeating any of the four transitions changes nothing more. |
| Mic.StreamGatesEverything | microphone.js:56-222 | After `gotStream`, listening and then recording succeed. After `initialize` without a stream, both throw. |
| Mic.RecordingIsDuplicatedMono | microphone.js:134-141 | Both channels receive the same frames, so the recording interleaves every sample twice. |
| Mic.Microphone.constructor | microphone.js:28-49 | A new object has every flag cleared, no recording and no frame. |
| Mic.Microphone.Initialize | microphone.js:56-76 | The flags become `InitializeFlags` of the old ones, and the recording buffers are emptied. |
| Mic.Microphone.GotStream | microphone.js:121-150 | The flags become `GotStreamFlags`, with a new FFT of BUFFER_LEN points and an empty frame. |
| Mic.Microphone.IsInitialized | microphone.js:165-172 | True exactly when the object is initialized. |
| Mic.Microphone.AudioProcess | microphone.js:134-141 | The frame becomes `timeData`. While recording, one copy is appended to each channel and recordingLength grows by BUFFER_LEN. Otherwise the recording is untouched. |
| Mic.Microphone.StartListening | microphone.js:180-192 | Follows `StartListeningFlags`, and leaves the flags unchanged when it throws. |
| Mic.Microphone.StopListening | microphone.js:198-206 | Follows `StopListeningFlags`. |
| Mic.Microphone.StartRecording | microphone.js:212-222 | Follows `StartRecordingFlags`, and leaves the flags unchanged when it throws. |
| Mic.Microphone.StopRecording | microphone.js:228-234 | Follows `StopRecordingFlags`. A file is written exactly when it was recording; it is the WAVE file as written for the interleaved channels, 44 + 4·recordingLength bytes long. The buffers are kept. |
| Mic.Microphone.GetFreq | microphone.js:291-301 | Throws unless processing. Method 1 gives the autocorrelation estimate of `timeData`. Method 2 gives the FFT estimate, or `forward`'s error when the frame is not BUFFER_LEN long. Any other method gives undefined. On the FFT path with a full frame, the FFT is left `Transformed(timeData, …)`; on every failure and every other method the FFT is unchanged. |
| Mic.Microphone.GetNote | microphone.js:308-318 | The same guard and dispatch, returning the matched note's name. The FFT state is stated as for `GetFreq`: `Transformed(timeData, …)` on the FFT path with a full frame, unchanged otherwise. |
| Mic.Microphone.GetNoteCents | microphone.js:325-335 | The same guard and dispatch, returning the matched note with the frequency it was matched from. The FFT state is stated as for `GetFreq`. |
| TestDriver.Frames | test_harness/test_driver.js:84-87 | floor(len/1024) frames, each 1024 samples long. |
| TestDriver.FramesTile | test_harness/test_driver.js:84-87 | The frames, in order, are exactly the first floor(len/1024)·1024 samples. Nothing is skipped or repeated, and the partial tail is dropped. |
| TestDriver.AutocorrFreqs | test_harness/test_driver.js:86-88 | One autocorrelation estimate per frame. |
| TestDriver.Labels | test_harness/test_driver.js:88-89 | One note name per estimate. |
| TestDriver.LabelsAppend | test_harness/test_driver.js:88-89 | Labelling one more estimate appends one name. |
| TestDriver.SilentChannelLabels | test_harness/test_driver.js:84-90 | A silent channel is labelled "A#1" on every frame by autocorrelation. |
| TestDriver.FrameStep | test_harness/test_driver.js:86-88 | The slice at i = k·1024 lies inside the data and is frame k. |
| TestDriver.FramesDone | test_harness/test_driver.js:84-86 | When the loop stops, every frame has been labelled. |
| TestDriver.Harness.constructor | test_harness/test_driver.js:39-73 | Empty result columns (lines 39-40) and the `new FFT(MY_FFT_SIZE, SAMPLE_RATE)` of `loadAndTestWithFile` (line 73): 1024 points at 44100 Hz. |
| TestDriver.Harness.FinishedLoading | test_harness/test_driver.js:79-90 | `autocorrNotes` gains the autocorrelation label of every frame in order. `fftNotes` gains one FFT label per frame. The two columns keep equal length, and `forward` never throws. Every FFT estimate is finite or NaN, and a finite one lies between 0 and the rounded frequency of bin 511. |
| TestDriver.Harness.LabelFrame | test_harness/test_driver.js:87-89 | One frame pushes its autocorrelation note and the note of its FFT estimate. That estimate is `FreqFromSpectrum` of the spectrum `forward` leaves, so it lies in the FFT range. The FFT is left `Transformed(subdata, …)`: its zero-frequency bin is the sum of the frame, and its spectrum is the magnitudes of the transformed buffers. |
| TestDriver.SpectrumFreqInRange | test_harness/test_driver.js:87-89 | Every 512-bin spectrum gives an estimate that is not Infinity and, when finite, lies between 0 and the rounded frequency of bin 511. |

## Left out

- Browser plumbing is not part of this model:
  - `getUserMedia` and its vendor detection;
  - the AudioContext, ScriptProcessor and source-node wiring and the `connect`/`disconnect` calls;
  - `noStream`, `alert` and `console.log`;
  - the Blob/URL/anchor downloads in `writeToWav`, `logData` and `finishedLoading`;
  - `BufferLoader`.
- `GotStream` and `AudioProcess` are the two callbacks the caller invokes. The caller delivers frames of 1024 samples, the `createScriptProcessor(BUFFER_LEN, …)` size.
- test_harness/play_audio.js is not part of this model. It is timer- and media-element-driven playback with no logic to state.
- Mic.Microphone.GetNoteCents: returns the matched note and the frequency instead of the rounded cents offset `1200·log2(freq / round(noteFreq))`. `Math.log` is not modelled.
- `getMaxInputAmplitude` is not modelled, because its result is `Math.round(20·Math.log(…))`. The same goes for `DSP.RMS`, `FFT.inverse`, `DFT`, `RFFT` and `getBandFrequency`.
- Fourier.FFT.Butterflies: states only the zero-frequency bin of the result, the sum of its inputs. `ButterflyStage` states each step pair by pair. The other bins are not tied to the discrete Fourier transform, because the twiddle factors come from host `sin`/`cos` tables and the model has no trigonometry. So `Forward` ties its input to the zero-frequency bin only (`real[0]` is the sum of the samples, `imag[0]` is 0). It states the spectrum in terms of the transformed `re`/`im`, not of the input.
- Float32 and double rounding are not modelled. Samples and magnitudes are exact reals, and `Float32Array` copies store the values unchanged.
- `Math.sqrt`, `Math.sin`, `Math.cos` and `Math.PI` are parameters (`Host`). The only property assumed of `sqrt` is that it is non-negative.
- Mic.Microphone.GetFreq: the method argument is compared with `==` in the source. The model takes an integer, so string arguments such as "1" are not modelled.
- Mic.Microphone.Initialize: `initialize` sets `fft` and `timeData` to null. The model keeps the previous FFT and sets `timeData` to the empty frame. A query needs `processing`, and `processing` needs a stream, which supplies a fresh FFT, so the difference cannot be observed.
- Autocorrelation.Autocorrelate: requires a full frame. On a shorter frame every sum in the source is `NaN`. That case is modelled one level up, in `Pitch.FreqFromAutocorr`, which returns Infinity.
- Dsp.MixSampleBuffers: requires the second buffer to be at least as long as the first and volumeCorrection to be non-zero. With a shorter second buffer or a zero correction the source produces `NaN` or `Infinity`, which is not modelled.
- Dsp.Deinterleaver.Deinterleave: with an odd-length buffer the source's loop runs once more than the cached length, and a typed array ignores that last write past its end. The model stops one step earlier, which leaves the same contents.
- Wav.InterleaveChannels: requires equal lengths. `writeToWav` always passes two buffers of recordingLength.
- Fourier.FFT.constructor: requires bufferSize ≤ 2^30. Above that the 32-bit `<<` in the table loop overflows and the loop never ends. `sinTable[0]` and `cosTable[0]` (sin and cos of −π/0) are left unstated.
- TestDriver.Harness.FinishedLoading: the FFT column is stated through the ghost estimates it returns, one per frame, each bounded to the FFT range. It is not stated as a function of the data, because the butterflies are specified pair by pair and by their zero-frequency bin, not as a closed-form transform of the input.
- The CSV text of `finishedLoading` and its download are not modelled.

## Findings

| source | as written | input that shows it | evidently intended | confidence | as-written member | corrected member |
|---|---|---|---|---|---|---|
| microphone.js:514 | The RIFF chunk size at byte 4 is written as `44 + interleaved.length * 2`, the length of the whole file. | Any recording, for example one frame of 1024 samples per channel: 2048 interleaved samples give a 4140-byte file whose RIFF size field reads 4140. | The RIFF chunk size excludes the 8-byte 'RIFF' tag and size field, so it should be 36 + 2L (4132 here), the file length minus 8. | not executed | Wav.RiffSizeAsWrittenIsFileLength | Wav.WavFileHeader |

`Wav.WriteHeader`, `Wav.WriteFile`, `Wav.WriteToWav` and
`Mic.Microphone.StopRecording` state the file the code writes,
`WavFileAsWritten`. `Wav.WavFile` is the corrected file.
`Wav.AsWrittenDiffersOnlyInRiffSize` proves that the two differ only in
bytes 4-7.
