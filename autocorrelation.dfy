/** The time-domain pitch estimator of microphone.js (`autocorrelate` and
    `getPeakPeriodicityIndex`); test_harness/test_driver.js carries a copy. */
module Autocorrelation {

  /** Samples per frame (`BUFFER_LEN`). */
  const BUFFER_LEN: nat := 1024
  /** Hertz (`SAMPLE_RATE`). */
  const SAMPLE_RATE: nat := 44100
  /** Lowest frequency the lag search looks for (`MIN_SUPPORTED_FREQ`). */
  const MIN_SUPPORTED_FREQ: nat := 60
  /** `SAMPLE_RATE / MIN_SUPPORTED_FREQ`, which is exactly 735. */
  const MAX_PEAK_SEARCH: nat := SAMPLE_RATE / MIN_SUPPORTED_FREQ

  lemma MaxPeakSearchIsExact()
    ensures MAX_PEAK_SEARCH == 735 && MAX_PEAK_SEARCH * MIN_SUPPORTED_FREQ == SAMPLE_RATE
    ensures MAX_PEAK_SEARCH < BUFFER_LEN
  {
  }

  // ---------------------------------------------------------------------------
  // The lag sums

  /** `data[0] * data[lag] + ... + data[n - 1] * data[n - 1 + lag]`,
      accumulated left to right as the source does. */
  function LagSum(data: seq<real>, lag: nat, n: nat): real
    requires n + lag <= |data|
  {
    if n == 0 then 0.0 else LagSum(data, lag, n - 1) + data[n - 1] * data[n - 1 + lag]
  }

  /** The autocorrelation profile of the first `BUFFER_LEN` samples:
      entry `i` sums `data[j] * data[j + i]` over `j < BUFFER_LEN - i`. */
  function AutocorrelationOf(data: seq<real>): (sums: seq<real>)
    requires |data| >= BUFFER_LEN
    ensures |sums| == BUFFER_LEN
  {
    seq(BUFFER_LEN, i requires 0 <= i < BUFFER_LEN => LagSum(data, i, BUFFER_LEN - i))
  }

  /** `autocorrelate`: the O(N^2) double loop filling a fresh array. */
  method Autocorrelate(data: seq<real>) returns (sums: seq<real>)
    requires |data| >= BUFFER_LEN
    ensures |sums| == BUFFER_LEN
    ensures forall i | 0 <= i < BUFFER_LEN :: sums[i] == LagSum(data, i, BUFFER_LEN - i)
  {
    var a := new real[BUFFER_LEN];
    var i := 0;
    while i < BUFFER_LEN
      invariant 0 <= i <= BUFFER_LEN
      invariant forall k | 0 <= k < i :: a[k] == LagSum(data, k, BUFFER_LEN - k)
    {
      a[i] := 0.0;
      var j := 0;
      while j < BUFFER_LEN - i
        invariant 0 <= j <= BUFFER_LEN - i
        invariant a[i] == LagSum(data, i, j)
        invariant forall k | 0 <= k < i :: a[k] == LagSum(data, k, BUFFER_LEN - k)
      {
        a[i] := a[i] + data[j] * data[j + i];
        j := j + 1;
      }
      i := i + 1;
    }
    sums := a[..];
  }

  /** Lag 0 is a sum of squares, so it is never negative. */
  lemma {:induction false} EnergyNonNegative(data: seq<real>, n: nat)
    requires n <= |data|
    ensures LagSum(data, 0, n) >= 0.0
  {
    if n > 0 {
      EnergyNonNegative(data, n - 1);
      var x := data[n - 1];
      assert x * x >= 0.0 by {
        if x < 0.0 {
          assert x * x == (-x) * (-x);
        }
      }
    }
  }

  /** The lag sums only read the samples they multiply: samples at and after
      index `n + lag` do not matter. */
  lemma {:induction false} LagSumPrefix(data: seq<real>, other: seq<real>, lag: nat, n: nat)
    requires n + lag <= |data| && n + lag <= |other|
    requires data[..n + lag] == other[..n + lag]
    ensures LagSum(data, lag, n) == LagSum(other, lag, n)
  {
    if n > 0 {
      assert data[..n - 1 + lag] == other[..n - 1 + lag] by {
        assert data[..n - 1 + lag] == data[..n + lag][..n - 1 + lag];
        assert other[..n - 1 + lag] == other[..n + lag][..n - 1 + lag];
      }
      LagSumPrefix(data, other, lag, n - 1);
      assert data[n - 1] == data[..n + lag][n - 1] && data[n - 1 + lag] == data[..n + lag][n - 1 + lag];
      assert other[n - 1] == other[..n + lag][n - 1] && other[n - 1 + lag] == other[..n + lag][n - 1 + lag];
    }
  }

  /** `autocorrelate` reads only indices below `BUFFER_LEN`: a longer buffer
      gives the profile of its first `BUFFER_LEN` samples. */
  lemma ReadsOnlyFrame(data: seq<real>)
    requires |data| >= BUFFER_LEN
    ensures AutocorrelationOf(data) == AutocorrelationOf(data[..BUFFER_LEN])
  {
    var frame := data[..BUFFER_LEN];
    var whole, prefix := AutocorrelationOf(data), AutocorrelationOf(frame);
    forall i | 0 <= i < BUFFER_LEN
      ensures whole[i] == prefix[i]
    {
      assert data[..BUFFER_LEN] == frame[..BUFFER_LEN];
      LagSumPrefix(data, frame, i, BUFFER_LEN - i);
    }
  }

  /** Lag 0 of every profile is non-negative. */
  lemma ProfileStartsNonNegative(data: seq<real>)
    requires |data| >= BUFFER_LEN
    ensures AutocorrelationOf(data)[0] >= 0.0
  {
    EnergyNonNegative(data, BUFFER_LEN);
  }

  // ---------------------------------------------------------------------------
  // The peak search

  /** End of the run of non-negative sums starting at `i`. */
  function SkipNonNegative(sums: seq<real>, i: nat): (e: nat)
    requires i <= |sums|
    ensures i <= e <= |sums|
    decreases |sums| - i
  {
    if i < |sums| && sums[i] >= 0.0 then SkipNonNegative(sums, i + 1) else i
  }

  /** End of the run of negative sums starting at `i`. */
  function SkipNegative(sums: seq<real>, i: nat): (e: nat)
    requires i <= |sums|
    ensures i <= e <= |sums|
    decreases |sums| - i
  {
    if i < |sums| && sums[i] < 0.0 then SkipNegative(sums, i + 1) else i
  }

  /** Where the search for the peak starts: after the leading non-negative
      run and the negative run that follows it. */
  function PeakSearchStart(sums: seq<real>): nat
    requires |sums| == BUFFER_LEN
  {
    SkipNegative(sums, SkipNonNegative(sums, 0))
  }

  /** The index the source's arg-max loop holds after scanning `[lo, hi)`,
      starting from `lo`: it moves only on a strictly larger sum. */
  function ArgMaxFrom(sums: seq<real>, lo: nat, hi: nat): (k: nat)
    requires lo <= hi <= |sums| && lo < |sums|
    ensures lo <= k < |sums| && (lo < hi ==> k < hi)
  {
    if hi == lo then lo
    else
      var b := ArgMaxFrom(sums, lo, hi - 1);
      if sums[hi - 1] > sums[b] then hi - 1 else b
  }

  /** The lag `getPeakPeriodicityIndex` returns. */
  function PeakIndexOf(sums: seq<real>): (k: nat)
    requires |sums| == BUFFER_LEN
    ensures PeakSearchStart(sums) <= k <= BUFFER_LEN
    ensures PeakSearchStart(sums) < MAX_PEAK_SEARCH ==> k < MAX_PEAK_SEARCH
  {
    var s := PeakSearchStart(sums);
    if s < MAX_PEAK_SEARCH then ArgMaxFrom(sums, s, MAX_PEAK_SEARCH) else s
  }

  /** `getPeakPeriodicityIndex`: two skipping loops and an arg-max loop. */
  method GetPeakPeriodicityIndex(sums: seq<real>) returns (maxIndex: nat)
    requires |sums| == BUFFER_LEN
    ensures maxIndex == PeakIndexOf(sums)
  {
    var i := 0;
    while i < BUFFER_LEN && sums[i] >= 0.0
      invariant 0 <= i <= BUFFER_LEN
      invariant SkipNonNegative(sums, i) == SkipNonNegative(sums, 0)
    {
      i := i + 1;
    }
    while i < BUFFER_LEN && sums[i] < 0.0
      invariant 0 <= i <= BUFFER_LEN
      invariant SkipNegative(sums, i) == PeakSearchStart(sums)
    {
      i := i + 1;
    }
    maxIndex := i;
    if i < MAX_PEAK_SEARCH {
      var start := i;
      var m := sums[i];
      while i < MAX_PEAK_SEARCH
        invariant start <= i <= MAX_PEAK_SEARCH
        invariant maxIndex == ArgMaxFrom(sums, start, i) && m == sums[maxIndex]
      {
        if sums[i] > m {
          m := sums[i];
          maxIndex := i;
        }
        i := i + 1;
      }
    }
  }

  /** The runs skipped before the search: all sums before `e` from `i` on are
      non-negative, and the run stops at the end or at a negative sum. */
  lemma {:induction false} SkipNonNegativeRun(sums: seq<real>, i: nat)
    requires i <= |sums|
    ensures forall k | i <= k < SkipNonNegative(sums, i) :: sums[k] >= 0.0
    ensures SkipNonNegative(sums, i) == |sums| || sums[SkipNonNegative(sums, i)] < 0.0
    decreases |sums| - i
  {
    if i < |sums| && sums[i] >= 0.0 {
      SkipNonNegativeRun(sums, i + 1);
    }
  }

  lemma {:induction false} SkipNegativeRun(sums: seq<real>, i: nat)
    requires i <= |sums|
    ensures forall k | i <= k < SkipNegative(sums, i) :: sums[k] < 0.0
    ensures SkipNegative(sums, i) == |sums| || sums[SkipNegative(sums, i)] >= 0.0
    decreases |sums| - i
  {
    if i < |sums| && sums[i] < 0.0 {
      SkipNegativeRun(sums, i + 1);
    }
  }

  /** `ArgMaxFrom` is the EARLIEST position of the largest sum in `[lo, hi)`. */
  lemma {:induction false} ArgMaxFromIsEarliestMax(sums: seq<real>, lo: nat, hi: nat)
    requires lo < hi <= |sums|
    ensures forall k | lo <= k < hi :: sums[k] <= sums[ArgMaxFrom(sums, lo, hi)]
    ensures forall k | lo <= k < ArgMaxFrom(sums, lo, hi) :: sums[k] < sums[ArgMaxFrom(sums, lo, hi)]
  {
    if hi - 1 > lo {
      ArgMaxFromIsEarliestMax(sums, lo, hi - 1);
    }
  }

  /** The peak search start is at least 1: lag 0 is skipped by one of the two
      runs whatever its sign. */
  lemma PeakSearchStartPositive(sums: seq<real>)
    requires |sums| == BUFFER_LEN
    ensures 1 <= PeakSearchStart(sums) <= BUFFER_LEN
  {
  }

  /** What `getPeakPeriodicityIndex` returns: with `s` the search start, the
      earliest arg-max of `sums` on `[s, MAX_PEAK_SEARCH)`, or `s` itself when
      that range is empty; in every case a lag in `[1, BUFFER_LEN]`, so the
      division `SAMPLE_RATE / maxIndex` never divides by zero. */
  lemma PeakIndexSpec(sums: seq<real>)
    requires |sums| == BUFFER_LEN
    ensures var s := PeakSearchStart(sums);
      && (forall k | 0 <= k < SkipNonNegative(sums, 0) :: sums[k] >= 0.0)
      && (forall k | SkipNonNegative(sums, 0) <= k < s :: sums[k] < 0.0)
      && (s == BUFFER_LEN || sums[s] >= 0.0)
      && (s >= MAX_PEAK_SEARCH ==> PeakIndexOf(sums) == s)
      && (s < MAX_PEAK_SEARCH ==>
            && s <= PeakIndexOf(sums) < MAX_PEAK_SEARCH
            && (forall k | s <= k < MAX_PEAK_SEARCH :: sums[k] <= sums[PeakIndexOf(sums)])
            && (forall k | s <= k < PeakIndexOf(sums) :: sums[k] < sums[PeakIndexOf(sums)]))
    ensures 1 <= PeakIndexOf(sums) <= BUFFER_LEN
  {
    SkipNonNegativeRun(sums, 0);
    SkipNegativeRun(sums, SkipNonNegative(sums, 0));
    var s := PeakSearchStart(sums);
    PeakSearchStartPositive(sums);
    if s < MAX_PEAK_SEARCH {
      ArgMaxFromIsEarliestMax(sums, s, MAX_PEAK_SEARCH);
    }
  }

  /** The peak lag is a valid divisor: between 1 and `BUFFER_LEN`. */
  lemma PeakIndexInRange(sums: seq<real>)
    requires |sums| == BUFFER_LEN
    ensures 1 <= PeakIndexOf(sums) <= BUFFER_LEN
  {
    PeakIndexSpec(sums);
  }

  lemma {:induction false} SilentLagSum(data: seq<real>, lag: nat, n: nat)
    requires n + lag <= |data|
    requires forall k | 0 <= k < |data| :: data[k] == 0.0
    ensures LagSum(data, lag, n) == 0.0
  {
    if n > 0 {
      SilentLagSum(data, lag, n - 1);
    }
  }

  lemma {:induction false} SkipAllNonNegative(sums: seq<real>, i: nat)
    requires i <= |sums|
    requires forall k | i <= k < |sums| :: sums[k] >= 0.0
    ensures SkipNonNegative(sums, i) == |sums|
    decreases |sums| - i
  {
    if i < |sums| {
      SkipAllNonNegative(sums, i + 1);
    }
  }

  /** An all-zero frame has no zero crossing; the search runs to the end of
      the profile and the peak lag is `BUFFER_LEN`. */
  lemma SilentFramePeak(data: seq<real>)
    requires |data| == BUFFER_LEN
    requires forall k | 0 <= k < |data| :: data[k] == 0.0
    ensures PeakIndexOf(AutocorrelationOf(data)) == BUFFER_LEN
  {
    var sums := AutocorrelationOf(data);
    forall i | 0 <= i < BUFFER_LEN
      ensures sums[i] == 0.0
    {
      SilentLagSum(data, i, BUFFER_LEN - i);
    }
    SkipAllNonNegative(sums, 0);
  }
}
