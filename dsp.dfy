/** The general-purpose sample-buffer helpers of the DSP object bundled with
    test_harness/test_driver.js: invert, interleave, deinterleave,
    mixSampleBuffers and Peak. */
module Dsp {
  import opened Wrappers
  import NoteTable

  /** Channel selectors accepted by deinterleave. */
  const LEFT: int := 0
  const RIGHT: int := 1
  const MIX: int := 2

  // ---------------------------------------------------------------------------
  // invert

  /** Every sample with its sign flipped. */
  function Negated(s: seq<real>): seq<real>
  {
    seq(|s|, i requires 0 <= i < |s| => -s[i])
  }

  /** Flips the sign of every sample in place and hands back the same buffer. */
  method Invert(buffer: array<real>) returns (r: array<real>)
    modifies buffer
    ensures r == buffer
    ensures buffer[..] == Negated(old(buffer[..]))
  {
    for i := 0 to buffer.Length
      invariant buffer[..i] == Negated(old(buffer[..]))[..i]
      invariant buffer[i..] == old(buffer[i..])
    {
      buffer[i] := buffer[i] * -1.0;
    }
    r := buffer;
  }

  /** Inverting twice gives the original samples back. */
  lemma NegatedTwice(s: seq<real>)
    ensures Negated(Negated(s)) == s
  {
  }

  // ---------------------------------------------------------------------------
  // Peak

  /** The running maximum of the absolute sample values, starting from 0 and
      replaced only by a strictly larger magnitude. */
  function PeakOf(s: seq<real>): (p: real)
    ensures p >= 0.0
  {
    if |s| == 0 then 0.0
    else
      var p := PeakOf(s[..|s| - 1]);
      if NoteTable.Abs(s[|s| - 1]) > p then NoteTable.Abs(s[|s| - 1]) else p
  }

  /** Peak is 0 for an empty buffer, bounds every sample's magnitude, and is
      the magnitude of some sample whenever the buffer is non-empty. */
  lemma {:induction false} PeakSpec(s: seq<real>)
    ensures PeakOf(s) >= 0.0
    ensures forall i :: 0 <= i < |s| ==> NoteTable.Abs(s[i]) <= PeakOf(s)
    ensures |s| == 0 ==> PeakOf(s) == 0.0
    ensures |s| > 0 ==> exists i :: 0 <= i < |s| && PeakOf(s) == NoteTable.Abs(s[i])
  {
    if |s| > 0 {
      var init := s[..|s| - 1];
      PeakSpec(init);
      forall i | 0 <= i < |s| - 1
        ensures NoteTable.Abs(s[i]) <= PeakOf(s)
      {
        assert s[i] == init[i];
      }
      if NoteTable.Abs(s[|s| - 1]) <= PeakOf(init) && |init| > 0 {
        var j :| 0 <= j < |init| && PeakOf(init) == NoteTable.Abs(init[j]);
        assert s[j] == init[j];
      }
    }
  }

  /** The peak is 0 exactly when the buffer is silent. */
  lemma PeakZeroIffSilent(s: seq<real>)
    ensures PeakOf(s) == 0.0 <==> forall i :: 0 <= i < |s| ==> s[i] == 0.0
  {
    PeakSpec(s);
    if PeakOf(s) == 0.0 {
      forall i | 0 <= i < |s|
        ensures s[i] == 0.0
      {
        assert NoteTable.Abs(s[i]) <= 0.0;
      }
    } else {
      var j :| 0 <= j < |s| && PeakOf(s) == NoteTable.Abs(s[j]);
      assert s[j] != 0.0;
    }
  }

  /** Inverting a buffer does not change its peak. */
  lemma {:induction false} PeakOfNegated(s: seq<real>)
    ensures PeakOf(Negated(s)) == PeakOf(s)
  {
    if |s| > 0 {
      var init := s[..|s| - 1];
      assert Negated(s)[..|s| - 1] == Negated(init);
      PeakOfNegated(init);
    }
  }

  /** The maximum absolute sample value of the buffer. */
  method Peak(buffer: array<real>) returns (peak: real)
    ensures peak == PeakOf(buffer[..])
  {
    peak := 0.0;
    for i := 0 to buffer.Length
      invariant peak == PeakOf(buffer[..i])
    {
      assert buffer[..i + 1][..i] == buffer[..i];
      peak := if NoteTable.Abs(buffer[i]) > peak then NoteTable.Abs(buffer[i]) else peak;
    }
    assert buffer[..buffer.Length] == buffer[..];
  }

  // ---------------------------------------------------------------------------
  // interleave

  /** The stereo interleaving of two equally long channels: left then right,
      sample by sample. */
  function Interleaved(left: seq<real>, right: seq<real>): (r: seq<real>)
    requires |left| == |right|
    ensures |r| == 2 * |left|
  {
    if |left| == 0 then []
    else [left[0], right[0]] + Interleaved(left[1..], right[1..])
  }

  /** Interleaving doubles the length and puts left[i] at 2i, right[i] at 2i+1. */
  lemma {:induction false} InterleavedIndex(left: seq<real>, right: seq<real>)
    requires |left| == |right|
    ensures |Interleaved(left, right)| == 2 * |left|
    ensures forall i :: 0 <= i < |left| ==>
      Interleaved(left, right)[2 * i] == left[i] && Interleaved(left, right)[2 * i + 1] == right[i]
  {
    if |left| > 0 {
      InterleavedIndex(left[1..], right[1..]);
      var rest := Interleaved(left[1..], right[1..]);
      forall i | 1 <= i < |left|
        ensures Interleaved(left, right)[2 * i] == left[i]
        ensures Interleaved(left, right)[2 * i + 1] == right[i]
      {
        assert rest[2 * (i - 1)] == left[1..][i - 1];
        assert rest[2 * (i - 1) + 1] == right[1..][i - 1];
      }
    }
  }

  /** Interleaves two channels into a new buffer; channels of different
      length are an error. */
  method Interleave(left: array<real>, right: array<real>) returns (r: Result<array<real>, string>)
    ensures r.Failure? <==> left.Length != right.Length
    ensures r.Success? ==> fresh(r.value) && r.value[..] == Interleaved(left[..], right[..])
  {
    if left.Length != right.Length {
      return Failure("Can not interleave. Channel lengths differ.");
    }
    var stereo := new real[left.Length * 2](_ => 0.0);
    for i := 0 to left.Length
      invariant forall j :: 0 <= j < i ==> stereo[2 * j] == left[j] && stereo[2 * j + 1] == right[j]
    {
      stereo[2 * i] := left[i];
      stereo[2 * i + 1] := right[i];
    }
    InterleavedIndex(left[..], right[..]);
    InterleavedEqual(stereo[..], left[..], right[..]);
    r := Success(stereo);
  }

  /** A sequence with the interleaved layout is the interleaving. */
  lemma InterleavedEqual(s: seq<real>, left: seq<real>, right: seq<real>)
    requires |left| == |right| && |s| == 2 * |left|
    requires forall j :: 0 <= j < |left| ==> s[2 * j] == left[j] && s[2 * j + 1] == right[j]
    ensures s == Interleaved(left, right)
  {
    InterleavedIndex(left, right);
    forall k | 0 <= k < |s|
      ensures s[k] == Interleaved(left, right)[k]
    {
      var j := k / 2;
      assert s[2 * j] == left[j] && s[2 * j + 1] == right[j];
      if k % 2 == 0 {
        assert k == 2 * j;
      } else {
        assert k == 2 * j + 1;
      }
    }
  }

  // ---------------------------------------------------------------------------
  // deinterleave

  /** The left channel of an interleaved buffer (an odd trailing sample is
      dropped). */
  function Evens(s: seq<real>): seq<real>
  {
    seq(|s| / 2, i requires 0 <= i < |s| / 2 => s[2 * i])
  }

  /** The right channel of an interleaved buffer. */
  function Odds(s: seq<real>): seq<real>
  {
    seq(|s| / 2, i requires 0 <= i < |s| / 2 => s[2 * i + 1])
  }

  /** The mono mix-down: the mean of each left/right pair. */
  function MixDown(s: seq<real>): seq<real>
  {
    seq(|s| / 2, i requires 0 <= i < |s| / 2 => (s[2 * i] + s[2 * i + 1]) / 2.0)
  }

  /** Deinterleaving undoes interleaving, channel by channel. */
  lemma SplitInterleaved(left: seq<real>, right: seq<real>)
    requires |left| == |right|
    ensures Evens(Interleaved(left, right)) == left
    ensures Odds(Interleaved(left, right)) == right
  {
    InterleavedIndex(left, right);
  }

  /** Interleaving the two channels of an even-length buffer rebuilds it. */
  lemma InterleaveSplit(s: seq<real>)
    requires |s| % 2 == 0
    ensures Interleaved(Evens(s), Odds(s)) == s
  {
    InterleavedEqual(s, Evens(s), Odds(s));
  }

  /** The mix channel is the mean of the two channels that were interleaved. */
  lemma MixDownOfInterleaved(left: seq<real>, right: seq<real>)
    requires |left| == |right|
    ensures |MixDown(Interleaved(left, right))| == |left|
    ensures forall i :: 0 <= i < |left| ==>
      MixDown(Interleaved(left, right))[i] == (left[i] + right[i]) / 2.0
  {
    InterleavedIndex(left, right);
  }

  /** The deinterleave closure: three output buffers cached between calls and
      handed back to the caller, so a later call of the same size overwrites
      what an earlier call returned. */
  class Deinterleaver {
    var left: array<real>
    var right: array<real>
    var mix: array<real>

    ghost predicate Valid()
      reads this
    {
      left != right && left != mix && right != mix
      && left.Length == right.Length == mix.Length
    }

    /** Before the first call no buffers are cached. */
    constructor ()
      ensures Valid()
      ensures left.Length == 0
    {
      left := new real[0];
      right := new real[0];
      mix := new real[0];
    }

    /** The caches are replaced by fresh zeroed buffers unless their length
        already equals half the input length (never the case for an odd
        input, whose half is fractional). */
    predicate Reallocates(bufferLength: nat)
      reads this
    {
      bufferLength % 2 == 1 || bufferLength / 2 != left.Length
    }

    /** Extracts one channel of a stereo-interleaved buffer into the matching
        cached buffer and returns that buffer; any selector other than LEFT,
        RIGHT or MIX fails, after the caches have been resized. */
    method Deinterleave(channel: int, buffer: array<real>) returns (r: Result<array<real>, string>)
      requires Valid()
      modifies this, left, right, mix
      ensures Valid()
      ensures left.Length == buffer.Length / 2
      ensures old(Reallocates(buffer.Length)) ==> fresh(left) && fresh(right) && fresh(mix)
      ensures !old(Reallocates(buffer.Length)) ==>
        left == old(left) && right == old(right) && mix == old(mix)
      ensures r.Failure? <==> channel !in {LEFT, RIGHT, MIX}
      ensures channel == LEFT ==> r == Success(left) && left[..] == Evens(old(buffer[..]))
      ensures channel == RIGHT ==> r == Success(right) && right[..] == Odds(old(buffer[..]))
      ensures channel == MIX ==> r == Success(mix) && mix[..] == MixDown(old(buffer[..]))
      ensures channel != LEFT ==>
        left[..] == if old(Reallocates(buffer.Length)) then Zeros(buffer.Length / 2) else old(left[..])
      ensures channel != RIGHT ==>
        right[..] == if old(Reallocates(buffer.Length)) then Zeros(buffer.Length / 2) else old(right[..])
      ensures channel != MIX ==>
        mix[..] == if old(Reallocates(buffer.Length)) then Zeros(buffer.Length / 2) else old(mix[..])
    {
      var half := buffer.Length / 2;
      if Reallocates(buffer.Length) {
        left := new real[half](_ => 0.0);
        right := new real[half](_ => 0.0);
        mix := new real[half](_ => 0.0);
      }
      var samples := buffer[..];
      if channel == LEFT {
        FillFrom(left, Evens(samples));
        r := Success(left);
      } else if channel == RIGHT {
        FillFrom(right, Odds(samples));
        r := Success(right);
      } else if channel == MIX {
        FillFrom(mix, MixDown(samples));
        r := Success(mix);
      } else {
        r := Failure("deinterleaveChannel[channel] is not a function");
      }
    }
  }

  /** A buffer of `n` zero samples, as a fresh typed array holds. */
  function Zeros(n: nat): seq<real>
  {
    seq(n, _ => 0.0)
  }

  /** Copies `values` into `dst`, one sample per loop step. */
  method FillFrom(dst: array<real>, values: seq<real>)
    requires dst.Length == |values|
    modifies dst
    ensures dst[..] == values
  {
    for i := 0 to dst.Length
      invariant dst[..i] == values[..i]
    {
      dst[i] := values[i];
    }
  }

  // ---------------------------------------------------------------------------
  // mixSampleBuffers

  /** `first` plus `second` (negated when `negate`) scaled down by the volume
      correction, sample by sample over the length of `first`. */
  function MixedSamples(first: seq<real>, second: seq<real>, negate: bool, volumeCorrection: real): seq<real>
    requires |second| >= |first| && volumeCorrection != 0.0
  {
    seq(|first|, i requires 0 <= i < |first| =>
      first[i] + (if negate then -second[i] else second[i]) / volumeCorrection)
  }

  /** Mixes two sample buffers into a new buffer of the first one's length. */
  method MixSampleBuffers(first: array<real>, second: array<real>, negate: bool, volumeCorrection: real)
    returns (output: array<real>)
    requires second.Length >= first.Length && volumeCorrection != 0.0
    ensures fresh(output)
    ensures output[..] == MixedSamples(first[..], second[..], negate, volumeCorrection)
  {
    output := new real[first.Length](i requires 0 <= i < first.Length reads first => first[i]);
    for i := 0 to first.Length
      invariant forall j | 0 <= j < i :: output[j] == MixedSamples(first[..], second[..], negate, volumeCorrection)[j]
      invariant forall j :: i <= j < first.Length ==> output[j] == first[j]
    {
      output[i] := output[i] + (if negate then -second[i] else second[i]) / volumeCorrection;
    }
    assert output[..] == MixedSamples(first[..], second[..], negate, volumeCorrection);
  }

  /** Mixing with negation is mixing with the inverted second buffer. */
  lemma MixNegatedIsMixOfInverted(first: seq<real>, second: seq<real>, volumeCorrection: real)
    requires |second| >= |first| && volumeCorrection != 0.0
    ensures MixedSamples(first, second, true, volumeCorrection)
      == MixedSamples(first, Negated(second), false, volumeCorrection)
  {
  }

  /** A buffer mixed with its own negation at unit volume cancels to silence. */
  lemma MixWithOwnInversionCancels(s: seq<real>)
    ensures MixedSamples(s, s, true, 1.0) == Zeros(|s|)
    ensures PeakOf(MixedSamples(s, s, true, 1.0)) == 0.0
  {
    PeakZeroIffSilent(MixedSamples(s, s, true, 1.0));
  }
}
