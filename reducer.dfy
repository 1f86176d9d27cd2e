/** The block reducers `filter_data` (mean magnitude per block) and
    `filter_data_v2` (signed peak per block). `par_chunks(..).map(..).collect()`
    is modelled as the sequential, order-preserving map it is equivalent to. */
module Reducer {
  import opened Samples
  import opened Chunking

  /** A Rust `u16`. */
  type U16 = x: int | 0 <= x < 0x1_0000

  /** The rate used when the caller passes none. */
  const DefaultSamplesPerSecond: nat := 100

  /** `samples_per_second.unwrap_or(100)`. */
  function SamplesPerSecond(requested: Option<U16>): nat {
    match requested
    case Some(n) => n
    case None => DefaultSamplesPerSecond
  }

  /** `(duration * samples_per_second as f32).floor() as usize`, in exact
      arithmetic: the whole number of output slots the duration asks for. */
  function TargetBlocks(duration: real, requested: Option<U16>): (target: nat)
    requires duration >= 0.0
    ensures target as real <= duration * SamplesPerSecond(requested) as real < target as real + 1.0
  {
    (duration * SamplesPerSecond(requested) as real).Floor
  }

  // ---------------------------------------------------------------- variant 1

  /** `audio_buffer.len() / samples`: the number of whole targets that fit in
      the buffer, unguarded, so 0 exactly when the buffer is shorter than the
      target. */
  function BlockSize(len: nat, target: nat): (k: nat)
    requires target > 0
    ensures k * target <= len < k * target + target
    ensures k == 0 <==> len < target
  {
    DivTimes(len, target);
    len / target
  }

  /** `chunk.iter().map(|&x| x.abs()).sum::<f32>() / chunk.len() as f32`:
      the mean magnitude of a block, which lies between 0 and the block's
      largest magnitude. */
  function BlockMean(block: seq<real>): (m: real)
    requires block != []
    ensures 0.0 <= m <= MaxAbs(block)
  {
    var n := |block| as real;
    SumAbsAtMost(block, MaxAbs(block));
    DivAtMost(SumAbs(block), n, MaxAbs(block));
    SumAbs(block) / n
  }

  /** `filter_data`. Rust panics when the target is 0 (division by zero) or
      exceeds the buffer length (`par_chunks(0)`); both are excluded here and
      reported as panics by the entry point in module Waveform. The output has
      one entry per block of `len / target` samples, in buffer order: the mean
      magnitude of that block. */
  function FilterData(buffer: seq<real>, duration: real, requested: Option<U16>): (r: seq<real>)
    requires duration >= 0.0
    requires 0 < TargetBlocks(duration, requested) <= |buffer|
    ensures var k := BlockSize(|buffer|, TargetBlocks(duration, requested));
      && k > 0
      && IsCeilDiv(|r|, |buffer|, k)
      && forall i :: 0 <= i < |r| ==>
           && Block(buffer, k, i) != []
           && r[i] == BlockMean(Block(buffer, k, i))
           && 0.0 <= r[i] <= MaxAbs(Block(buffer, k, i))
  {
    var target := TargetBlocks(duration, requested);
    var k := BlockSize(|buffer|, target);
    DivTimes(|buffer|, target);
    assert k > 0;
    var chunks := Chunks(buffer, k);
    ChunksAreBlocks(buffer, k);
    seq(|chunks|, i requires 0 <= i < |chunks| => BlockMean(chunks[i]))
  }

  /** The output length is the number of blocks, ceil(len / (len / target)):
      never less than the target, and equal to it when the target divides
      the buffer length. */
  lemma FilterDataLength(buffer: seq<real>, duration: real, requested: Option<U16>)
    requires duration >= 0.0
    requires 0 < TargetBlocks(duration, requested) <= |buffer|
    ensures |FilterData(buffer, duration, requested)| >= TargetBlocks(duration, requested)
    ensures |buffer| % TargetBlocks(duration, requested) == 0 ==>
              |FilterData(buffer, duration, requested)| == TargetBlocks(duration, requested)
  {
    var t := TargetBlocks(duration, requested);
    var k := BlockSize(|buffer|, t);
    var n := |FilterData(buffer, duration, requested)|;
    DivTimes(|buffer|, t);
    CeilDivAtLeast(n, |buffer|, k, t);
    if |buffer| % t == 0 {
      assert |buffer| == k * t;
      CeilDivExact(n, k, t);
    }
  }

  /** A covering count is at least `t` whenever `t` pieces fit. */
  lemma CeilDivAtLeast(n: nat, len: nat, k: nat, t: nat)
    requires k > 0 && IsCeilDiv(n, len, k) && t * k <= len
    ensures n >= t
  {
    if n < t {
      MulStrictlyMonotone(n, t, k);
    }
  }

  /** `t` pieces of size `k` cover `t * k` elements exactly. */
  lemma CeilDivExact(n: nat, k: nat, t: nat)
    requires k > 0 && IsCeilDiv(n, k * t, k)
    ensures n == t
  {
    CeilDivAtLeast(n, k * t, k, t);
    if n - 1 > t {
      MulStrictlyMonotone(t, n - 1, k);
    }
  }

  /** The length is not the target in general: ten samples asked for four
      blocks give five blocks of two. */
  lemma FilterDataLengthExceedsTarget()
    ensures TargetBlocks(0.04, None) == 4
    ensures |FilterData(seq(10, i => 0.0), 0.04, None)| == 5
  {
  }

  // ---------------------------------------------------------------- variant 2

  /** `max(1, audio_buffer.len() / samples)`: guarded against a zero block
      size, but the division itself still needs a non-zero target. */
  function BlockSizeV2(len: nat, target: nat): (k: nat)
    requires target > 0
    ensures k > 0
  {
    if 1 >= len / target then 1 else len / target
  }

  /** `v` is an element of `xs` of largest magnitude, and no later element
      has that magnitude: the choice `Iterator::max_by` makes, since on a tie it
      keeps the later element. */
  predicate IsLastPeak(xs: seq<real>, v: real) {
    exists j ::
      && 0 <= j < |xs|
      && xs[j] == v
      && (forall i :: 0 <= i < |xs| ==> Abs(xs[i]) <= Abs(v))
      && (forall i :: j < i < |xs| ==> Abs(xs[i]) < Abs(v))
  }

  /** At most one value is the last peak of a sequence. */
  lemma LastPeakUnique(xs: seq<real>, v: real, w: real)
    requires IsLastPeak(xs, v) && IsLastPeak(xs, w)
    ensures v == w
  {
    var j :| 0 <= j < |xs| && xs[j] == v && (forall i :: j < i < |xs| ==> Abs(xs[i]) < Abs(v));
    var l :| 0 <= l < |xs| && xs[l] == w && (forall i :: l < i < |xs| ==> Abs(xs[i]) < Abs(w));
    assert Abs(v) == Abs(w);
  }

  /** The index of the element the fold of `max_by` keeps: each step replaces
      the accumulator unless the accumulator is strictly larger. */
  function PeakIndex(xs: seq<real>): (j: nat)
    requires xs != []
    ensures j < |xs|
    ensures forall i :: 0 <= i < |xs| ==> Abs(xs[i]) <= Abs(xs[j])
    ensures forall i :: j < i < |xs| ==> Abs(xs[i]) < Abs(xs[j])
    decreases |xs|
  {
    if |xs| == 1 then 0
    else
      var front := xs[..|xs| - 1];
      assert forall i :: 0 <= i < |front| ==> front[i] == xs[i];
      var p := PeakIndex(front);
      if Abs(xs[p]) > Abs(xs[|xs| - 1]) then p else |xs| - 1
  }

  /** `chunk.iter().copied().max_by(|a, b| a.abs().partial_cmp(&b.abs())..)`:
      `None` exactly for an empty chunk, otherwise its last peak. */
  function MaxByAbs(xs: seq<real>): (r: Option<real>)
    ensures r.None? <==> xs == []
    ensures r.Some? ==> IsLastPeak(xs, r.value)
  {
    if xs == [] then None
    else
      var j := PeakIndex(xs);
      assert IsLastPeak(xs, xs[j]);
      Some(xs[j])
  }

  /** `filter_data_v2`. Rust panics when the target is 0 (the division comes
      before the `max(1, ..)` guard); that case is excluded here and reported
      as a panic by the entry point in module Waveform. The output has one entry
      per block of `max(1, len / target)` samples, in buffer order: the last
      sample of largest magnitude in that block, with its sign. The
      `unwrap_or(0.0)` fallback is never taken, since no chunk is empty. */
  function FilterDataV2(buffer: seq<real>, duration: real, requested: Option<U16>): (r: seq<real>)
    requires duration >= 0.0
    requires TargetBlocks(duration, requested) > 0
    ensures var k := BlockSizeV2(|buffer|, TargetBlocks(duration, requested));
      && IsCeilDiv(|r|, |buffer|, k)
      && forall i :: 0 <= i < |r| ==> IsLastPeak(Block(buffer, k, i), r[i])
  {
    var k := BlockSizeV2(|buffer|, TargetBlocks(duration, requested));
    var chunks := Chunks(buffer, k);
    ChunksAreBlocks(buffer, k);
    seq(|chunks|, i requires 0 <= i < |chunks| =>
      match MaxByAbs(chunks[i])
      case Some(v) => v
      case None => 0.0)
  }

  /** The output length of variant 2: at least the target when the buffer
      holds that many samples, otherwise one block per sample. */
  lemma FilterDataV2Length(buffer: seq<real>, duration: real, requested: Option<U16>)
    requires duration >= 0.0
    requires TargetBlocks(duration, requested) > 0
    ensures |buffer| >= TargetBlocks(duration, requested) ==>
              |FilterDataV2(buffer, duration, requested)| >= TargetBlocks(duration, requested)
    ensures |buffer| < TargetBlocks(duration, requested) ==>
              |FilterDataV2(buffer, duration, requested)| == |buffer|
  {
    var t := TargetBlocks(duration, requested);
    BlockCountV2(|FilterDataV2(buffer, duration, requested)|, |buffer|, t);
  }

  /** The arithmetic behind FilterDataV2Length. */
  lemma BlockCountV2(n: nat, len: nat, t: nat)
    requires t > 0 && IsCeilDiv(n, len, BlockSizeV2(len, t))
    ensures len >= t ==> n >= t
    ensures len < t ==> n == len
  {
    var k := BlockSizeV2(len, t);
    DivTimes(len, t);
    if len >= t {
      assert k == len / t;
      CeilDivAtLeast(n, len, k, t);
    } else {
      assert len / t == 0;
    }
  }

  /** A silent buffer gives silent blocks (variant 1). */
  lemma FilterDataSilence(buffer: seq<real>, duration: real, requested: Option<U16>)
    requires duration >= 0.0
    requires 0 < TargetBlocks(duration, requested) <= |buffer|
    requires forall i :: 0 <= i < |buffer| ==> buffer[i] == 0.0
    ensures forall i :: 0 <= i < |FilterData(buffer, duration, requested)| ==> FilterData(buffer, duration, requested)[i] == 0.0
  {
    var r := FilterData(buffer, duration, requested);
    var k := BlockSize(|buffer|, TargetBlocks(duration, requested));
    forall i | 0 <= i < |r| ensures r[i] == 0.0 {
      BlockOfSilence(buffer, k, i);
    }
  }

  /** A silent buffer gives silent blocks (variant 2). */
  lemma FilterDataV2Silence(buffer: seq<real>, duration: real, requested: Option<U16>)
    requires duration >= 0.0
    requires TargetBlocks(duration, requested) > 0
    requires forall i :: 0 <= i < |buffer| ==> buffer[i] == 0.0
    ensures forall i :: 0 <= i < |FilterDataV2(buffer, duration, requested)| ==> FilterDataV2(buffer, duration, requested)[i] == 0.0
  {
    var r := FilterDataV2(buffer, duration, requested);
    var k := BlockSizeV2(|buffer|, TargetBlocks(duration, requested));
    forall i | 0 <= i < |r| ensures r[i] == 0.0 {
      BlockOfSilence(buffer, k, i);
    }
  }

  /** Every block of a silent buffer is silent, so its largest magnitude is 0. */
  lemma BlockOfSilence(buffer: seq<real>, k: nat, i: nat)
    requires forall j :: 0 <= j < |buffer| ==> buffer[j] == 0.0
    ensures forall j :: 0 <= j < |Block(buffer, k, i)| ==> Block(buffer, k, i)[j] == 0.0
    ensures MaxAbs(Block(buffer, k, i)) == 0.0
  {
    var start := i * k;
    var lo, hi := Min(start, |buffer|), Min(start + k, |buffer|);
    assert Block(buffer, k, i) == buffer[lo..hi];
    SilentSlice(buffer, lo, hi);
  }

  /** One block per second of a one-second clip: the whole buffer is one
      block, reduced to its mean magnitude (variant 1) or its last peak
      (variant 2). */
  lemma OneBlockForWholeClip(buffer: seq<real>)
    requires buffer != []
    ensures TargetBlocks(1.0, Some(1)) == 1
    ensures FilterData(buffer, 1.0, Some(1)) == [BlockMean(buffer)]
    ensures |FilterDataV2(buffer, 1.0, Some(1))| == 1
    ensures IsLastPeak(buffer, FilterDataV2(buffer, 1.0, Some(1))[0])
  {
    var len := |buffer|;
    assert BlockSize(len, 1) == len;
    assert BlockSizeV2(len, 1) == len;
    assert Block(buffer, len, 0) == buffer;
    var n := |FilterData(buffer, 1.0, Some(1))|;
    assert len == len * 1;
    CeilDivExact(n, len, 1);
    CeilDivExact(|FilterDataV2(buffer, 1.0, Some(1))|, len, 1);
  }
}
