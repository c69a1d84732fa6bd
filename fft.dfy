/** The radix-2 FFT of the DSP library bundled in test_harness/test_driver.js
    (`FourierTransform`, `FFT`, `FFT.prototype.forward`); microphone.js uses
    the same object through `new FFT(MY_FFT_SIZE, SAMPLE_RATE)`. */
module Fourier {
  import opened Wrappers

  /** The host's `Math.sqrt`, `Math.sin`, `Math.cos` and `Math.PI`. */
  datatype Host = Host(sqrt: real -> real, sin: real -> real, cos: real -> real, pi: real)

  /** The one fact about `Math.sqrt` the model relies on. */
  ghost predicate SqrtNonNegative(sqrt: real -> real)
  {
    forall x: real :: 0.0 <= x ==> 0.0 <= sqrt(x)
  }

  // ---------------------------------------------------------------------------
  // Powers of two and bit reversal

  function Pow2(k: nat): (p: nat)
    ensures p >= 1
  {
    if k == 0 then 1 else 2 * Pow2(k - 1)
  }

  predicate IsPowerOfTwo(n: nat)
  {
    n == 1 || (n >= 2 && n % 2 == 0 && IsPowerOfTwo(n / 2))
  }

  function Log2(n: nat): (k: nat)
    requires IsPowerOfTwo(n)
    ensures Pow2(k) == n
  {
    if n == 1 then 0 else 1 + Log2(n / 2)
  }

  lemma {:induction false} Pow2IsPowerOfTwo(k: nat)
    ensures IsPowerOfTwo(Pow2(k)) && Log2(Pow2(k)) == k
  {
    if k > 0 {
      Pow2IsPowerOfTwo(k - 1);
      assert Pow2(k) / 2 == Pow2(k - 1);
    }
  }

  /** `forward`'s size test `Math.pow(2, floor(log2 N)) === N`. It holds for
      the powers of two and also for 0, where the logarithm is `-Infinity`
      and `Math.pow(2, -Infinity)` is 0. */
  predicate PassesSizeGuard(n: nat)
  {
    n == 0 || IsPowerOfTwo(n)
  }

  /** The low `k` bits of `x`, reversed. */
  function BitRev(x: nat, k: nat): nat
  {
    if k == 0 then 0 else (if x % 2 == 1 then Pow2(k - 1) else 0) + BitRev(x / 2, k - 1)
  }

  lemma {:induction false} BitRevBound(x: nat, k: nat)
    ensures BitRev(x, k) < Pow2(k)
  {
    if k > 0 {
      BitRevBound(x / 2, k - 1);
    }
  }

  lemma {:induction false} BitRevZero(k: nat)
    ensures BitRev(0, k) == 0
  {
    if k > 0 {
      BitRevZero(k - 1);
    }
  }

  /** Setting bit `m` of `x` sets bit `k - 1 - m` of its reversal: the step
      `reverseTable[i + limit] = reverseTable[i] + bit` of the constructor. */
  lemma {:induction false} BitRevShift(i: nat, m: nat, k: nat)
    requires m < k && i < Pow2(m)
    ensures BitRev(i + Pow2(m), k) == BitRev(i, k) + Pow2(k - 1 - m)
  {
    if m == 0 {
      BitRevZero(k - 1);
    } else {
      var x := i + Pow2(m);
      assert x % 2 == i % 2 && x / 2 == i / 2 + Pow2(m - 1);
      BitRevShift(i / 2, m - 1, k - 1);
    }
  }

  lemma {:induction false} BitRevDouble(r: nat, k: nat)
    requires 1 <= k && r < Pow2(k - 1)
    ensures BitRev(r, k) == 2 * BitRev(r, k - 1)
  {
    if k > 1 {
      BitRevDouble(r / 2, k - 1);
    }
  }

  /** Reversing `k` bits twice gives back every `k`-bit index, so the table
      the constructor builds is a permutation of `[0, 2^k)` that is its own
      inverse. */
  lemma {:induction false} BitRevInvolution(x: nat, k: nat)
    requires x < Pow2(k)
    ensures BitRev(x, k) < Pow2(k)
    ensures BitRev(BitRev(x, k), k) == x
  {
    BitRevBound(x, k);
    if k > 0 {
      var y := x / 2;
      var r := BitRev(y, k - 1);
      BitRevInvolution(y, k - 1);
      BitRevDouble(r, k);
      if x % 2 == 1 {
        BitRevShift(r, k - 1, k);
      }
    }
  }

  lemma {:induction false} Pow2Add(a: nat, b: nat)
    ensures Pow2(a + b) == Pow2(a) * Pow2(b)
  {
    if a > 0 {
      Pow2Add(a - 1, b);
    }
  }

  /** Before a pass of `forward` with `halfSize = 2^s < 2^k`, the size is a
      whole number of blocks of `2 * halfSize`, the next `halfSize`. */
  lemma PassSizes(s: nat, k: nat)
    requires s < k
    ensures Pow2(k) == (2 * Pow2(s)) * Pow2(k - s - 1) && 2 * Pow2(s) <= Pow2(k)
  {
    Pow2Add(s + 1, k - s - 1);
    MultipleBounds(Pow2(k - s - 1), Pow2(s + 1));
  }

  /** The passes stop with `halfSize` equal to the size. */
  lemma LastPassSize(s: nat, k: nat)
    requires s <= k && Pow2(s) >= Pow2(k)
    ensures Pow2(s) == Pow2(k)
  {
    Pow2Add(s, k - s);
    MultipleBounds(Pow2(k - s), Pow2(s));
  }

  /** The pair `(j, j + h)` of `after` is the butterfly of that pair of
      `before` with twiddle factor `(pr, pi)`: with `t = (pr + i·pi) * x[j + h]`
      it holds `(x[j] + t, x[j] - t)`. */
  predicate ButterflyAt(reBefore: seq<real>, imBefore: seq<real>, reAfter: seq<real>, imAfter: seq<real>,
                        j: nat, h: nat, pr: real, pi: real)
  {
    && j + h < |reBefore| == |imBefore| == |reAfter| == |imAfter|
    && var tr, ti := pr * reBefore[j + h] - pi * imBefore[j + h], pr * imBefore[j + h] + pi * reBefore[j + h];
    && reAfter[j] == reBefore[j] + tr && imAfter[j] == imBefore[j] + ti
    && reAfter[j + h] == reBefore[j] - tr && imAfter[j + h] == imBefore[j] - ti
  }

  /** The state of one stage's loop before the pair at `i`: every pair
      `(j, j + h)` with `j < i` and `j = f (mod 2h)` holds its butterfly,
      every other index below `i` and every index from `i` on is as it was. */
  ghost predicate StageBelow(re0: seq<real>, im0: seq<real>, re1: seq<real>, im1: seq<real>,
                             i: nat, h: nat, f: nat, pr: real, pi: real)
  {
    && h > 0 && |re1| == |re0| && |im0| == |re0| && |im1| == |re0|
    && (forall j | 0 <= j < i && j < |re0| && j % (2 * h) == f :: ButterflyAt(re0, im0, re1, im1, j, h, pr, pi))
    && (forall j | 0 <= j < i && j < |re0| && j % (2 * h) != f && j % (2 * h) != f + h ::
          re1[j] == re0[j] && im1[j] == im0[j])
    && (forall j | i <= j < |re0| :: re1[j] == re0[j] && im1[j] == im0[j])
  }

  /** No pair top lies below the stage's first one, `f < 2h`. */
  lemma StageStart(re0: seq<real>, im0: seq<real>, h: nat, f: nat, pr: real, pi: real)
    requires f < h && |im0| == |re0|
    ensures StageBelow(re0, im0, re0, im0, f, h, f, pr, pi)
  {
    forall j | 0 <= j < f
      ensures j % (2 * h) == j
    {
      DivModUnique(j, 0, j, 2 * h);
    }
  }

  /** One butterfly at the next pair top `i` extends the stage's state past
      the block of `2h` indices that starts at `i`. */
  lemma StageStep(re0: seq<real>, im0: seq<real>, reB: seq<real>, imB: seq<real>, reA: seq<real>, imA: seq<real>,
                  i: nat, h: nat, f: nat, pr: real, pi: real)
    requires f < h && i % (2 * h) == f && i + h < |re0|
    requires StageBelow(re0, im0, reB, imB, i, h, f, pr, pi)
    requires ButterflyAt(reB, imB, reA, imA, i, h, pr, pi)
    requires forall k | 0 <= k < |reB| && k != i && k != i + h :: reA[k] == reB[k] && imA[k] == imB[k]
    ensures StageBelow(re0, im0, reA, imA, i + 2 * h, h, f, pr, pi)
  {
    var m := 2 * h;
    ResidueShift(i, h, m);
    forall j | 0 <= j < i + m && j < |re0| && j % m == f
      ensures ButterflyAt(re0, im0, reA, imA, j, h, pr, pi)
    {
      ResidueCases(j, i, m);
      if j < i {
        assert ButterflyAt(re0, im0, reB, imB, j, h, pr, pi);
      }
    }
  }

  function Sum(s: seq<real>): real
  {
    if |s| == 0 then 0.0 else Sum(s[..|s| - 1]) + s[|s| - 1]
  }

  /** The sum of a slice splits at any point inside it. */
  lemma {:induction false} SumSplit(s: seq<real>, a: nat, b: nat, c: nat)
    requires a <= b <= c <= |s|
    ensures Sum(s[a..c]) == Sum(s[a..b]) + Sum(s[b..c])
    decreases c - b
  {
    if b < c {
      SumSplit(s, a, b, c - 1);
      assert s[a..c][..c - a - 1] == s[a..c - 1];
      assert s[b..c][..c - b - 1] == s[b..c - 1];
    } else {
      assert s[b..c] == [];
    }
  }

  /** The sum of a concatenation is the sum of its parts. */
  lemma {:induction false} SumConcat(a: seq<real>, b: seq<real>)
    ensures Sum(a + b) == Sum(a) + Sum(b)
    decreases |b|
  {
    if |b| == 0 {
      assert a + b == a;
    } else {
      SumConcat(a, b[..|b| - 1]);
      assert (a + b)[..|a + b| - 1] == a + b[..|b| - 1];
    }
  }

  /** Taking one entry out of a sequence lowers its sum by that entry. */
  lemma SumRemove(s: seq<real>, m: nat)
    requires m < |s|
    ensures Sum(s) == Sum(s[..m] + s[m + 1..]) + s[m]
  {
    assert s == s[..m] + ([s[m]] + s[m + 1..]);
    SumConcat(s[..m], [s[m]] + s[m + 1..]);
    SumConcat([s[m]], s[m + 1..]);
    SumConcat([], [s[m]]);
    SumConcat(s[..m], s[m + 1..]);
  }

  /** An all-zero sequence sums to zero. */
  lemma {:induction false} SumZeros(s: seq<real>)
    requires forall i | 0 <= i < |s| :: s[i] == 0.0
    ensures Sum(s) == 0.0
  {
    if |s| > 0 {
      SumZeros(s[..|s| - 1]);
    }
  }

  /** `s` read through the index table `p`: entry `i` is `s[p[i]]`. */
  function PermutedBy(s: seq<real>, p: seq<nat>): (t: seq<real>)
    requires forall i | 0 <= i < |p| :: p[i] < |s|
    ensures |t| == |p|
  {
    seq(|p|, i requires 0 <= i < |p| => s[p[i]])
  }

  /** Reading a sequence through a bijection of its indices (`p`, with
      inverse `q`) keeps its sum. */
  lemma {:induction false} SumPermuted(s: seq<real>, p: seq<nat>, q: seq<nat>)
    requires |p| == |s| && |q| == |s|
    requires forall i | 0 <= i < |s| :: p[i] < |s| && q[p[i]] == i
    requires forall v | 0 <= v < |s| :: q[v] < |s| && p[q[v]] == v
    ensures Sum(PermutedBy(s, p)) == Sum(s)
  {
    var n := |s|;
    if n > 0 {
      var m := q[n - 1];
      var p' := seq(n - 1, i requires 0 <= i < n - 1 => if i < m then p[i] else p[i + 1]);
      var q' := seq(n - 1, v requires 0 <= v < n - 1 => if q[v] < m then q[v] else q[v] - 1);
      forall i | 0 <= i < n - 1
        ensures p'[i] < n - 1 && q'[p'[i]] == i
      {
        var j := if i < m then i else i + 1;
        assert p'[i] == p[j] && q[p[j]] == j && j != m;
      }
      forall v | 0 <= v < n - 1
        ensures q'[v] < n - 1 && p'[q'[v]] == v
      {
        assert p[q[v]] == v && q[v] != m;
      }
      SumPermuted(s[..n - 1], p', q');
      var t := PermutedBy(s, p);
      assert t[..m] + t[m + 1..] == PermutedBy(s[..n - 1], p');
      SumRemove(t, m);
    }
  }

  /** The bit-reversal table of a power-of-two size reorders a buffer of
      that size without changing its sum. */
  lemma BitReversedSum(buffer: seq<real>, table: seq<nat>, k: nat)
    requires |buffer| == Pow2(k) && |table| == |buffer|
    requires forall i | 0 <= i < |table| :: table[i] == BitRev(i, k)
    ensures forall i | 0 <= i < |table| :: table[i] < |buffer|
    ensures Sum(PermutedBy(buffer, table)) == Sum(buffer)
  {
    forall i | 0 <= i < |table|
      ensures table[i] < |buffer| && table[table[i]] == i
    {
      BitRevInvolution(i, k);
    }
    SumPermuted(buffer, table, table);
  }

  /** After the passes of size below `h`, each block of `h` entries that
      starts at a multiple of `h` carries the sum of the block's input at
      its first index. */
  ghost predicate BlockSums(re0: seq<real>, im0: seq<real>, re1: seq<real>, im1: seq<real>, h: nat)
  {
    && h > 0 && |re1| == |re0| && |im0| == |re0| && |im1| == |re0|
    && forall b | 0 <= b < |re0| && b % h == 0 ::
         b + h <= |re0| && re1[b] == Sum(re0[b..b + h]) && im1[b] == Sum(im0[b..b + h])
  }

  /** Blocks of one entry hold their own sum. */
  lemma BlockSumsStart(re0: seq<real>, im0: seq<real>)
    requires |im0| == |re0|
    ensures BlockSums(re0, im0, re0, im0, 1)
  {
    forall b | 0 <= b < |re0|
      ensures Sum(re0[b..b + 1]) == re0[b] && Sum(im0[b..b + 1]) == im0[b]
    {
      assert re0[b..b + 1][..0] == [];
      assert im0[b..b + 1][..0] == [];
    }
  }

  /** The first butterflies of a pass, with twiddle factor 1, add the sums
      of two neighbouring blocks of `h` into the block of `2h` they form. */
  lemma BlockSumsDouble(re0: seq<real>, im0: seq<real>, reB: seq<real>, imB: seq<real>, reA: seq<real>, imA: seq<real>,
                        h: nat)
    requires BlockSums(re0, im0, reB, imB, h) && |reA| == |re0| && |imA| == |re0|
    requires |re0| % (2 * h) == 0
    requires forall j | 0 <= j < |re0| && j % (2 * h) == 0 :: ButterflyAt(reB, imB, reA, imA, j, h, 1.0, 0.0)
    ensures BlockSums(re0, im0, reA, imA, 2 * h)
  {
    forall b | 0 <= b < |re0| && b % (2 * h) == 0
      ensures b + 2 * h <= |re0| && reA[b] == Sum(re0[b..b + 2 * h]) && imA[b] == Sum(im0[b..b + 2 * h])
    {
      BlockSumsDoubleAt(re0, im0, reB, imB, reA, imA, h, b);
    }
  }

  /** The block of `2h` at `b` joins the blocks of `h` at `b` and `b + h`. */
  lemma BlockSumsDoubleAt(re0: seq<real>, im0: seq<real>, reB: seq<real>, imB: seq<real>, reA: seq<real>, imA: seq<real>,
                          h: nat, b: nat)
    requires BlockSums(re0, im0, reB, imB, h) && |reA| == |re0| && |imA| == |re0|
    requires |re0| % (2 * h) == 0 && b < |re0| && b % (2 * h) == 0
    requires ButterflyAt(reB, imB, reA, imA, b, h, 1.0, 0.0)
    ensures b + 2 * h <= |re0| && reA[b] == Sum(re0[b..b + 2 * h]) && imA[b] == Sum(im0[b..b + 2 * h])
  {
    var n, m := |re0|, 2 * h;
    ResidueGap(b, n, m);
    var q := b / m;
    DivModUnique(b, 2 * q, 0, h);
    DivModUnique(b + h, 2 * q + 1, 0, h);
    assert reB[b] == Sum(re0[b..b + h]) && imB[b] == Sum(im0[b..b + h]);
    assert reB[b + h] == Sum(re0[b + h..b + m]) && imB[b + h] == Sum(im0[b + h..b + m]);
    SumSplit(re0, b, b + h, b + m);
    SumSplit(im0, b, b + h, b + m);
  }

  /** The later butterflies of a pass leave the first entry of every block
      of `2h` alone. */
  lemma BlockSumsKept(re0: seq<real>, im0: seq<real>, reB: seq<real>, imB: seq<real>, reA: seq<real>, imA: seq<real>,
                      h: nat, f: nat)
    requires BlockSums(re0, im0, reB, imB, 2 * h) && |reA| == |re0| && |imA| == |re0|
    requires 0 < f < h
    requires forall j | 0 <= j < |re0| && j % (2 * h) != f && j % (2 * h) != f + h ::
      reA[j] == reB[j] && imA[j] == imB[j]
    ensures BlockSums(re0, im0, reA, imA, 2 * h)
  {
  }

  /** Once a block covers the whole buffer, its first entry holds the sum
      of the input. */
  lemma BlockSumsWhole(re0: seq<real>, im0: seq<real>, re1: seq<real>, im1: seq<real>)
    requires |re0| > 0 && BlockSums(re0, im0, re1, im1, |re0|)
    ensures re1[0] == Sum(re0) && im1[0] == Sum(im0)
  {
    assert 0 % |re0| == 0;
    assert re0[0..|re0|] == re0;
    assert im0[0..|im0|] == im0;
  }

  /** A whole multiple of a positive m is at least m away from 0 unless it
      is 0. */
  lemma MultipleBounds(k: int, m: int)
    requires m > 0
    ensures k >= 1 ==> k * m >= m
    ensures k <= -1 ==> k * m <= -m
  {
    if k >= 1 {
      assert k * m == (k - 1) * m + m;
    } else if k <= -1 {
      assert k * m == (k + 1) * m - m;
    }
  }

  /** Euclidean division is unique: writing x as q·m + r with 0 <= r < m
      gives its quotient and residue. */
  lemma DivModUnique(x: int, q: int, r: int, m: int)
    requires m > 0 && 0 <= r < m && x == q * m + r
    ensures x % m == r && x / m == q
  {
    var q', r' := x / m, x % m;
    assert (q - q') * m == r' - r;
    MultipleBounds(q - q', m);
  }

  /** Two indices with the same residue mod m lie at least m apart. */
  lemma ResidueGap(j: nat, i: nat, m: nat)
    requires j < i && m > 0 && j % m == i % m
    ensures j + m <= i
  {
    var a, b := j / m, i / m;
    assert i - j == (b - a) * m;
    MultipleBounds(b - a, m);
  }

  /** Indices with the same residue mod m coincide or lie at least m apart. */
  lemma ResidueCases(j: nat, i: nat, m: nat)
    requires m > 0 && j % m == i % m
    ensures j == i || j + m <= i || i + m <= j
  {
    if j < i {
      ResidueGap(j, i, m);
    } else if i < j {
      ResidueGap(i, j, m);
    }
  }

  /** Adding less than what is left below m shifts the residue. */
  lemma ResidueShift(x: nat, d: nat, m: nat)
    requires m > 0 && x % m + d < m
    ensures (x + d) % m == x % m + d
  {
    DivModUnique(x + d, x / m, x % m + d, m);
  }

  /** The top of every butterfly pair of a stage has its partner inside
      the buffer. */
  lemma PairInRange(i: nat, halfSize: nat, c: nat, fftStep: nat)
    requires fftStep < halfSize && i % (2 * halfSize) == fftStep && i < (2 * halfSize) * c
    ensures i + halfSize < (2 * halfSize) * c
  {
    var m, q := 2 * halfSize, i / (2 * halfSize);
    assert i == q * m + fftStep;
    assert (c - q) * m == c * m - q * m;
    MultipleBounds(c - q, m);
  }

  /** Adding m keeps the residue. */
  lemma ResidueStep(x: nat, m: nat)
    requires m > 0
    ensures (x + m) % m == x % m
  {
    DivModUnique(x + m, x / m + 1, x % m, m);
  }

  // ---------------------------------------------------------------------------
  // The spectrum and the running peak

  /** One bin's magnitude, `bSi * sqrt(rval * rval + ival * ival)` with
      `bSi = 2 / n`. */
  function Magnitude(sqrt: real -> real, n: nat, rval: real, ival: real): real
    requires n > 0
  {
    (2.0 / n as real) * sqrt(rval * rval + ival * ival)
  }

  /** The magnitudes of the first `count` bins. */
  function Magnitudes(sqrt: real -> real, n: nat, re: seq<real>, im: seq<real>, count: nat): (mags: seq<real>)
    requires count <= |re| && count <= |im| && (count > 0 ==> n > 0)
    ensures |mags| == count
  {
    seq(count, i requires 0 <= i < count => Magnitude(sqrt, n, re[i], im[i]))
  }

  lemma MagnitudesNonNegative(sqrt: real -> real, n: nat, re: seq<real>, im: seq<real>, count: nat)
    requires SqrtNonNegative(sqrt)
    requires count <= |re| && count <= |im| && (count > 0 ==> n > 0)
    ensures forall i | 0 <= i < count :: Magnitudes(sqrt, n, re, im, count)[i] >= 0.0
  {
    var mags := Magnitudes(sqrt, n, re, im, count);
    forall i | 0 <= i < count
      ensures mags[i] >= 0.0
    {
      assert re[i] * re[i] + im[i] * im[i] >= 0.0;
      assert 2.0 / n as real > 0.0;
    }
  }

  /** Bins `calculateSpectrum` visits: `i < bufferSize / 2` with a real
      division, so an odd size visits one bin more than the spectrum holds. */
  function SpectrumLoopCount(n: nat): nat
  {
    (n + 1) / 2
  }

  /** The pair `(peak, peakBand)` that `calculateSpectrum` maintains. */
  datatype PeakTrack = PeakTrack(peak: real, band: nat)

  /** One bin seen: it replaces the pair only when strictly larger. */
  function PeakStep(t: PeakTrack, mag: real, i: nat): PeakTrack
  {
    if mag > t.peak then PeakTrack(mag, i) else t
  }

  /** The pair after the first `n` magnitudes, starting from `start`. */
  function PeakFold(mags: seq<real>, n: nat, start: PeakTrack): PeakTrack
    requires n <= |mags|
  {
    if n == 0 then start else PeakStep(PeakFold(mags, n - 1, start), mags[n - 1], n - 1)
  }

  /** The running peak never decreases and bounds every magnitude seen; when
      it rose, `peakBand` is the first bin that reached it, otherwise the pair
      is untouched. */
  lemma {:induction false} PeakFoldSpec(mags: seq<real>, n: nat, start: PeakTrack)
    requires n <= |mags|
    ensures var r := PeakFold(mags, n, start);
      && r.peak >= start.peak
      && (forall k | 0 <= k < n :: mags[k] <= r.peak)
      && (r.peak == start.peak ==> r == start)
      && (r.peak > start.peak ==>
            r.band < n && mags[r.band] == r.peak && forall k | 0 <= k < r.band :: mags[k] < r.peak)
  {
    if n > 0 {
      PeakFoldSpec(mags, n - 1, start);
    }
  }

  /** Folding two spectra one after the other is folding their
      concatenation, the second one's bins shifted by the first one's length;
      so across `forward` calls `peak` is the running maximum of every bin
      ever computed. */
  lemma {:induction false} PeakFoldAppend(a: seq<real>, b: seq<real>, m: nat, start: PeakTrack)
    requires m <= |b|
    ensures var mid := PeakFold(a, |a|, start);
      var r := PeakFold(b, m, mid);
      PeakFold(a + b, |a| + m, start) ==
        if r == mid then mid else PeakTrack(r.peak, |a| + r.band)
  {
    if m == 0 {
      PeakFoldPrefix(a, a + b, |a|, start);
    } else {
      PeakFoldAppend(a, b, m - 1, start);
      var mid := PeakFold(a, |a|, start);
      PeakFoldSpec(b, m - 1, mid);
      assert (a + b)[|a| + m - 1] == b[m - 1];
    }
  }

  lemma {:induction false} PeakFoldPrefix(a: seq<real>, c: seq<real>, n: nat, start: PeakTrack)
    requires n <= |a| && n <= |c| && a[..n] == c[..n]
    ensures PeakFold(a, n, start) == PeakFold(c, n, start)
  {
    if n > 0 {
      assert a[..n - 1] == a[..n][..n - 1] && c[..n - 1] == c[..n][..n - 1];
      assert a[n - 1] == a[..n][n - 1] && c[n - 1] == c[..n][n - 1];
      PeakFoldPrefix(a, c, n - 1, start);
    }
  }

  // ---------------------------------------------------------------------------
  // The FFT object

  datatype FftError =
    | InvalidBufferSize
    | BufferSizeMismatch(fftSize: nat, bufferLength: nat)

  class FFT {
    const bufferSize: nat
    const sampleRate: real
    /** `spectrum`, of `bufferSize / 2` bins. */
    const spectrum: array<real>
    /** `real` and `imag`, the transform's working buffers. */
    const re: array<real>
    const im: array<real>
    const reverseTable: array<nat>
    const sinTable: array<real>
    const cosTable: array<real>
    const sqrt: real -> real
    var peakBand: nat
    var peak: real

    ghost predicate Valid()
      reads this, reverseTable
    {
      && spectrum.Length == bufferSize / 2
      && re.Length == bufferSize && im.Length == bufferSize
      && reverseTable.Length == bufferSize
      && sinTable.Length == bufferSize && cosTable.Length == bufferSize
      && re != im && re != spectrum && im != spectrum
      && sinTable != re && sinTable != im && sinTable != spectrum
      && cosTable != re && cosTable != im && cosTable != spectrum
      && bufferSize <= 0x4000_0000
      && (IsPowerOfTwo(bufferSize) ==>
            forall i | 0 <= i < bufferSize :: reverseTable[i] == BitRev(i, Log2(bufferSize)))
      && SqrtNonNegative(sqrt)
    }

    /** `new FFT(bufferSize, sampleRate)`. The table loop doubles `limit` with
        32-bit shifts, so sizes above 2^30 never terminate in the source. */
    constructor (bufferSize: nat, sampleRate: real, host: Host)
      requires bufferSize <= 0x4000_0000
      requires SqrtNonNegative(host.sqrt)
      ensures Valid()
      ensures this.bufferSize == bufferSize && this.sampleRate == sampleRate
      ensures peak == 0.0 && peakBand == 0
      ensures forall i | 0 <= i < bufferSize :: re[i] == 0.0 && im[i] == 0.0
      ensures forall i | 0 <= i < bufferSize / 2 :: spectrum[i] == 0.0
      ensures forall i | 1 <= i < bufferSize ::
        sinTable[i] == host.sin(-host.pi / i as real) && cosTable[i] == host.cos(-host.pi / i as real)
      ensures fresh(spectrum) && fresh(re) && fresh(im) && fresh(reverseTable)
    {
      this.bufferSize := bufferSize;
      this.sampleRate := sampleRate;
      spectrum := new real[bufferSize / 2](_ => 0.0);
      re := new real[bufferSize](_ => 0.0);
      im := new real[bufferSize](_ => 0.0);
      peakBand := 0;
      peak := 0.0;
      sqrt := host.sqrt;
      var table := new nat[bufferSize](_ => 0);
      BuildReverseTable(table);
      reverseTable := table;
      // Entry 0 is `Math.sin(-Infinity)`, NaN in the source; no transform reads it.
      sinTable := new real[bufferSize](i => if i == 0 then 0.0 else host.sin(-host.pi / i as real));
      cosTable := new real[bufferSize](i => if i == 0 then 0.0 else host.cos(-host.pi / i as real));
    }

    /** The doubling loop of the constructor on a zero-filled table; writes
        past the end of the typed array are dropped. For a power-of-two size
        the table ends up holding the bit reversal of every index. */
    static method BuildReverseTable(table: array<nat>)
      requires table.Length <= 0x4000_0000
      requires forall i | 0 <= i < table.Length :: table[i] == 0
      modifies table
      ensures IsPowerOfTwo(table.Length) ==>
        forall i | 0 <= i < table.Length :: table[i] == BitRev(i, Log2(table.Length))
    {
      var n := table.Length;
      var limit: nat := 1;
      var bit: nat := n / 2;
      ghost var m := 0;
      ghost var k := if IsPowerOfTwo(n) then Log2(n) else 0;
      if n > 0 {
        assert table[0] == 0;
        BitRevZero(k);
      }
      if IsPowerOfTwo(n) && k > 0 {
        assert Pow2(k) == 2 * Pow2(k - 1);
      }
      while limit < n
        invariant limit == Pow2(m) && limit <= 0x8000_0000
        invariant IsPowerOfTwo(n) ==> m <= k && (m < k ==> bit == Pow2(k - 1 - m))
        invariant IsPowerOfTwo(n) ==>
          forall i | 0 <= i < limit && i < n :: table[i] == BitRev(i, k)
        decreases n - limit
      {
        ExtendReverseTable(table, limit, bit);
        if IsPowerOfTwo(n) {
          DoubledReverseTable(table[..], m, k);
          if m + 1 < k {
            assert Pow2(k - 1 - m) == 2 * Pow2(k - 1 - (m + 1));
          }
        }
        limit := limit * 2;
        bit := bit / 2;
        m := m + 1;
      }
    }

    /** After one pass, the bit reversals of the first `2^m` indices have
        become those of the first `2^(m+1)`. */
    static lemma DoubledReverseTable(t: seq<nat>, m: nat, k: nat)
      requires m < k
      requires forall i | 0 <= i < Pow2(m) && i < |t| :: t[i] == BitRev(i, k)
      requires forall j | Pow2(m) <= j < 2 * Pow2(m) && j < |t| :: t[j] == t[j - Pow2(m)] + Pow2(k - 1 - m)
      ensures forall i | 0 <= i < 2 * Pow2(m) && i < |t| :: t[i] == BitRev(i, k)
    {
      forall j | Pow2(m) <= j < 2 * Pow2(m) && j < |t|
        ensures t[j] == BitRev(j, k)
      {
        BitRevShift(j - Pow2(m), m, k);
      }
    }

    /** One pass of the constructor's `for` loop: `table[i + limit] =
        table[i] + bit` for every `i < limit`, dropping writes past the end. */
    static method ExtendReverseTable(table: array<nat>, limit: nat, bit: nat)
      requires limit < table.Length
      modifies table
      ensures forall j | 0 <= j < limit :: table[j] == old(table[j])
      ensures forall j | limit <= j < 2 * limit && j < table.Length :: table[j] == old(table[j - limit]) + bit
    {
      for i := 0 to limit
        invariant forall j | 0 <= j < limit :: table[j] == old(table[j])
        invariant forall j | limit <= j < limit + i && j < table.Length :: table[j] == old(table[j - limit]) + bit
      {
        if i + limit < table.Length {
          table[i + limit] := table[i] + bit;
        }
      }
    }

    /** The state a successful `forward(buffer)` leaves, from the peak pair
        `track` it started with: the zero-frequency bin of the transform
        holds the sum of the samples and no imaginary part, the spectrum
        holds the magnitudes of the transformed buffers, and the peak pair
        is folded over the bins the spectrum loop visits. */
    ghost predicate Transformed(buffer: seq<real>, track: PeakTrack)
      reads this, re, im, spectrum
    {
      && |buffer| == bufferSize && re.Length == bufferSize && im.Length == bufferSize
      && (bufferSize > 0 ==> re[0] == Sum(buffer) && im[0] == 0.0)
      && spectrum[..] == Magnitudes(sqrt, bufferSize, re[..], im[..], bufferSize / 2)
      && PeakTrack(peak, peakBand) ==
           PeakFold(Magnitudes(sqrt, bufferSize, re[..], im[..], SpectrumLoopCount(bufferSize)),
                    SpectrumLoopCount(bufferSize), track)
    }

    /** `forward(buffer)`: rejects a size that fails the power-of-two test,
        then a buffer whose length differs from the FFT size; otherwise it
        transforms the buffer and refreshes the spectrum and the peak. */
    method Forward(buffer: seq<real>) returns (r: Outcome<FftError>)
      requires Valid()
      modifies this`peak, this`peakBand, re, im, spectrum
      ensures Valid()
      ensures r == Fail(InvalidBufferSize) <==> !PassesSizeGuard(bufferSize)
      ensures r == Fail(BufferSizeMismatch(bufferSize, |buffer|)) <==>
        PassesSizeGuard(bufferSize) && |buffer| != bufferSize
      ensures r.Pass? <==> PassesSizeGuard(bufferSize) && |buffer| == bufferSize
      ensures r.Fail? ==> unchanged(this, re, im, spectrum)
      ensures r.Pass? ==> Transformed(buffer, PeakTrack(old(peak), old(peakBand)))
    {
      if !PassesSizeGuard(bufferSize) {
        return Fail(InvalidBufferSize);
      }
      if bufferSize != |buffer| {
        return Fail(BufferSizeMismatch(bufferSize, |buffer|));
      }
      BitReverseCopy(buffer);
      if bufferSize > 0 {
        BitReversedSum(buffer, reverseTable[..], Log2(bufferSize));
        assert re[..] == PermutedBy(buffer, reverseTable[..]);
        SumZeros(im[..]);
      }
      Butterflies();
      CalculateSpectrum();
      r := Pass;
    }

    /** The first loop of `forward`: `real[i] = buffer[reverseTable[i]]` and
        `imag[i] = 0`, i.e. the input in bit-reversed order. */
    method BitReverseCopy(buffer: seq<real>)
      requires Valid() && PassesSizeGuard(bufferSize) && |buffer| == bufferSize
      modifies re, im
      ensures forall i | 0 <= i < bufferSize :: reverseTable[i] < bufferSize
      ensures forall i | 0 <= i < bufferSize :: re[i] == buffer[reverseTable[i]] && im[i] == 0.0
    {
      forall i | 0 <= i < bufferSize
        ensures reverseTable[i] < bufferSize
      {
        BitRevBound(i, Log2(bufferSize));
      }
      for i := 0 to bufferSize
        invariant forall j | 0 <= j < i :: re[j] == buffer[reverseTable[j]] && im[j] == 0.0
      {
        re[i] := buffer[reverseTable[i]];
        im[i] := 0.0;
      }
    }

    /** The butterfly passes of `forward`: stage `halfSize` combines every
        pair `(i, i + halfSize)` with the twiddle factor advanced by the
        tables' `halfSize` entries. */
    method Butterflies()
      requires Valid() && PassesSizeGuard(bufferSize)
      modifies re, im
      ensures bufferSize > 0 ==> re[0] == Sum(old(re[..])) && im[0] == Sum(old(im[..]))
    {
      var n := bufferSize;
      ghost var re0, im0 := re[..], im[..];
      var halfSize := 1;
      ghost var s := 0;
      ghost var k := if n > 0 then Log2(n) else 0;
      BlockSumsStart(re0, im0);
      while halfSize < n
        invariant halfSize == Pow2(s)
        invariant n > 0 ==> s <= k && halfSize <= n && BlockSums(re0, im0, re[..], im[..], halfSize)
        decreases n as int - halfSize
      {
        assert s < k;
        PassSizes(s, k);
        ButterflyPass(halfSize, Pow2(k - s - 1), re0, im0);
        halfSize := 2 * halfSize;
        s := s + 1;
      }
      if n > 0 {
        LastPassSize(s, k);
        BlockSumsWhole(re0, im0, re[..], im[..]);
      }
    }

    /** One pass of the outer loop of `forward`: for each `fftStep` below
        `halfSize`, the butterflies of that step with the twiddle factor
        `(cos + i·sin)^fftStep` built from the tables' `halfSize` entries.
        Blocks of `halfSize` holding their input sums become blocks of twice
        that size holding theirs. */
    method ButterflyPass(halfSize: nat, ghost c: nat, ghost re0: seq<real>, ghost im0: seq<real>)
      requires Valid() && halfSize < bufferSize && bufferSize == (2 * halfSize) * c
      requires BlockSums(re0, im0, re[..], im[..], halfSize)
      modifies re, im
      ensures BlockSums(re0, im0, re[..], im[..], 2 * halfSize)
    {
      DivModUnique(bufferSize, c, 0, 2 * halfSize);
      var stepRe := cosTable[halfSize];
      var stepIm := sinTable[halfSize];
      var phaseRe := 1.0;
      var phaseIm := 0.0;
      var fftStep := 0;
      while fftStep < halfSize
        invariant fftStep <= halfSize
        invariant fftStep == 0 ==> phaseRe == 1.0 && phaseIm == 0.0 && BlockSums(re0, im0, re[..], im[..], halfSize)
        invariant fftStep > 0 ==> BlockSums(re0, im0, re[..], im[..], 2 * halfSize)
      {
        ghost var reB, imB := re[..], im[..];
        ButterflyStage(halfSize, c, fftStep, phaseRe, phaseIm);
        if fftStep == 0 {
          BlockSumsDouble(re0, im0, reB, imB, re[..], im[..], halfSize);
        } else {
          BlockSumsKept(re0, im0, reB, imB, re[..], im[..], halfSize, fftStep);
        }
        var tmp := phaseRe;
        phaseRe := tmp * stepRe - phaseIm * stepIm;
        phaseIm := tmp * stepIm + phaseIm * stepRe;
        fftStep := fftStep + 1;
      }
    }

    /** The inner `while (i < bufferSize)` loop of one `fftStep`: the
        butterflies `(i, i + halfSize)` for `i = fftStep, fftStep + 2 *
        halfSize, ...`, all with the same twiddle factor. */
    method ButterflyStage(halfSize: nat, ghost c: nat, fftStep: nat, phaseRe: real, phaseIm: real)
      requires re.Length == bufferSize && im.Length == bufferSize && re != im
      requires fftStep < halfSize && bufferSize == (2 * halfSize) * c
      modifies re, im
      ensures forall j | 0 <= j < bufferSize && j % (2 * halfSize) == fftStep ::
        ButterflyAt(old(re[..]), old(im[..]), re[..], im[..], j, halfSize, phaseRe, phaseIm)
      ensures forall j | 0 <= j < bufferSize && j % (2 * halfSize) != fftStep && j % (2 * halfSize) != fftStep + halfSize ::
        re[j] == old(re[j]) && im[j] == old(im[j])
    {
      var n := bufferSize;
      var m := 2 * halfSize;
      ghost var re0, im0 := re[..], im[..];
      var i := fftStep;
      DivModUnique(fftStep, 0, fftStep, m);
      StageStart(re0, im0, halfSize, fftStep, phaseRe, phaseIm);
      while i < n
        invariant i % m == fftStep
        invariant StageBelow(re0, im0, re[..], im[..], i, halfSize, fftStep, phaseRe, phaseIm)
        decreases n - i
      {
        PairInRange(i, halfSize, c, fftStep);
        ResidueStep(i, m);
        ghost var reB, imB := re[..], im[..];
        Butterfly(i, halfSize, phaseRe, phaseIm);
        StageStep(re0, im0, reB, imB, re[..], im[..], i, halfSize, fftStep, phaseRe, phaseIm);
        i := i + m;
      }
      forall j | 0 <= j < n
        ensures re[j] == re[..][j] && im[j] == im[..][j]
      {
      }
    }

    /** One butterfly of `forward`: with `t = phase * x[off]`, the pair
        `(x[i], x[off])` at `off = i + halfSize` becomes `(x[i] + t, x[i] - t)`. */
    method Butterfly(i: nat, halfSize: nat, phaseRe: real, phaseIm: real)
      requires re.Length == im.Length && re != im && i + halfSize < re.Length && halfSize > 0
      modifies re, im
      ensures ButterflyAt(old(re[..]), old(im[..]), re[..], im[..], i, halfSize, phaseRe, phaseIm)
      ensures forall k | 0 <= k < re.Length && k != i && k != i + halfSize ::
        re[k] == old(re[k]) && im[k] == old(im[k])
    {
      var off := i + halfSize;
      var tr := phaseRe * re[off] - phaseIm * im[off];
      var ti := phaseRe * im[off] + phaseIm * re[off];
      re[off] := re[i] - tr;
      im[off] := im[i] - ti;
      re[i] := re[i] + tr;
      im[i] := im[i] + ti;
    }

    /** `calculateSpectrum`: stores each bin's magnitude and keeps the
        strictly-largest magnitude seen so far with its bin. */
    method CalculateSpectrum()
      requires spectrum.Length == bufferSize / 2 && re.Length == bufferSize && im.Length == bufferSize
      requires spectrum != re && spectrum != im
      modifies this`peak, this`peakBand, spectrum
      ensures spectrum[..] == Magnitudes(sqrt, bufferSize, re[..], im[..], bufferSize / 2)
      ensures PeakTrack(peak, peakBand) ==
        PeakFold(Magnitudes(sqrt, bufferSize, re[..], im[..], SpectrumLoopCount(bufferSize)),
                 SpectrumLoopCount(bufferSize), PeakTrack(old(peak), old(peakBand)))
    {
      peak, peakBand := SpectrumLoop(sqrt, bufferSize, re[..], im[..], spectrum, peak, peakBand);
    }

    /** The loop of `calculateSpectrum` over the locals it copies from the
        object (`spectrum`, `real`, `imag`, `peak`, `peakBand`). */
    static method SpectrumLoop(sqrt: real -> real, n: nat, re: seq<real>, im: seq<real>, spectrum: array<real>,
                               peak0: real, band0: nat) returns (peak: real, peakBand: nat)
      requires spectrum.Length == n / 2 && |re| == n && |im| == n
      modifies spectrum
      ensures spectrum[..] == Magnitudes(sqrt, n, re, im, n / 2)
      ensures PeakTrack(peak, peakBand) ==
        PeakFold(Magnitudes(sqrt, n, re, im, SpectrumLoopCount(n)), SpectrumLoopCount(n), PeakTrack(peak0, band0))
    {
      var count := SpectrumLoopCount(n);
      ghost var mags := Magnitudes(sqrt, n, re, im, count);
      peak, peakBand := peak0, band0;
      for i := 0 to count
        invariant PeakTrack(peak, peakBand) == PeakFold(mags, i, PeakTrack(peak0, band0))
        invariant i <= spectrum.Length ==> spectrum[..i] == mags[..i]
        invariant i > spectrum.Length ==> spectrum[..] == mags[..spectrum.Length]
      {
        var mag := Magnitude(sqrt, n, re[i], im[i]);
        assert mag == mags[i];
        if mag > peak {
          peakBand := i;
          peak := mag;
        }
        if i < spectrum.Length {
          spectrum[i] := mag;
        }
      }
      ghost var half := Magnitudes(sqrt, n, re, im, n / 2);
      assert spectrum[..] == mags[..n / 2];
      assert forall j | 0 <= j < n / 2 :: mags[j] == half[j];
    }
  }
}
