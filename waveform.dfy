/** The entry points `audio_to_waveform` and `audio_to_waveform_v2`: decode,
    reduce to blocks, normalize. The input is the probe's answer for the
    given bytes (see module Decoder). */
module Waveform {
  import opened Samples
  import opened Errors
  import opened Decoder
  import opened Reducer
  import opened Normalizer

  /** `audio_to_waveform`: a failure of `read_sample` comes back as is (the
      `?`); otherwise the block means of the decoded buffer, scaled by the
      normalizer into [0, 1]. `filter_data` panics on a zero target and on a
      buffer shorter than the target. */
  function AudioToWaveform(probed: Attempt<Format>, requested: Option<U16>): (r: Outcome<seq<real>>)
    ensures ReadSampleSpec(probed).Fail? ==> r == Fail(ReadSampleSpec(probed).failure)
    ensures ReadSampleSpec(probed).Panic? ==> r == Panic(ReadSampleSpec(probed).reason)
    ensures r.Done? ==> ReadSampleSpec(probed).Done?
  {
    match ReadSampleSpec(probed)
    case Fail(f) => Fail(f)
    case Panic(p) => Panic(p)
    case Done(decoded) =>
      var duration := Duration(decoded);
      var target := TargetBlocks(duration, requested);
      if target == 0 then Panic(DivideByZero)
      else if |decoded.samples| < target then Panic(ZeroChunkSize)
      else Done(NormalizeData(FilterData(decoded.samples, duration, requested)))
  }

  /** `audio_to_waveform_v2`: as variant 1 with the peak reducer and the
      signed normalizer; only a zero target panics. */
  function AudioToWaveformV2(probed: Attempt<Format>, requested: Option<U16>): (r: Outcome<seq<real>>)
    ensures ReadSampleSpec(probed).Fail? ==> r == Fail(ReadSampleSpec(probed).failure)
    ensures ReadSampleSpec(probed).Panic? ==> r == Panic(ReadSampleSpec(probed).reason)
    ensures r.Done? ==> ReadSampleSpec(probed).Done?
  {
    match ReadSampleSpec(probed)
    case Fail(f) => Fail(f)
    case Panic(p) => Panic(p)
    case Done(decoded) =>
      var duration := Duration(decoded);
      var target := TargetBlocks(duration, requested);
      if target == 0 then Panic(DivideByZero)
      else Done(NormalizeDataV2(FilterDataV2(decoded.samples, duration, requested)))
  }

  /** The panics that remain once decoding has succeeded: exactly a target of
      0 for either variant, and a buffer shorter than the target for
      variant 1. */
  lemma WaveformPanics(probed: Attempt<Format>, requested: Option<U16>)
    requires ReadSampleSpec(probed).Done?
    ensures var d := ReadSampleSpec(probed).value;
      var target := TargetBlocks(Duration(d), requested);
      && (AudioToWaveform(probed, requested).Panic? <==> target == 0 || |d.samples| < target)
      && (AudioToWaveformV2(probed, requested).Panic? <==> target == 0)
  {
  }

  /** A decode that counted no frames has duration 0, so both variants panic
      dividing by a zero target. */
  lemma EmptyDecodePanics(probed: Attempt<Format>, requested: Option<U16>)
    requires ReadSampleSpec(probed).Done? && ReadSampleSpec(probed).value.sampleCount == 0
    ensures AudioToWaveform(probed, requested) == Panic(DivideByZero)
    ensures AudioToWaveformV2(probed, requested) == Panic(DivideByZero)
  {
    assert Duration(ReadSampleSpec(probed).value) == 0.0;
  }

  /** What the test helper checks of variant 1: every value lies in [0, 1],
      and some value is exactly 1 unless the whole waveform is silent. */
  lemma AudioToWaveformInUnitRange(probed: Attempt<Format>, requested: Option<U16>)
    requires AudioToWaveform(probed, requested).Done?
    ensures var w := AudioToWaveform(probed, requested).value;
      && (forall i :: 0 <= i < |w| ==> 0.0 <= w[i] <= 1.0)
      && ((exists i :: 0 <= i < |w| && w[i] == 1.0) || (forall i :: 0 <= i < |w| ==> w[i] == 0.0))
  {
    var d := ReadSampleSpec(probed).value;
    var duration := Duration(d);
    var filtered := FilterData(d.samples, duration, requested);
    assert AudioToWaveform(probed, requested).value == NormalizeData(filtered);
    MeansNormalizeIntoUnitRange(filtered);
  }

  /** Normalizing non-negative values gives values in [0, 1], with a 1 among
      them unless they are all 0. */
  lemma MeansNormalizeIntoUnitRange(xs: seq<real>)
    requires forall i :: 0 <= i < |xs| ==> xs[i] >= 0.0
    ensures forall i :: 0 <= i < |xs| ==> 0.0 <= NormalizeData(xs)[i] <= 1.0
    ensures (exists i :: 0 <= i < |xs| && NormalizeData(xs)[i] == 1.0)
         || (forall i :: 0 <= i < |xs| ==> NormalizeData(xs)[i] == 0.0)
  {
    if exists i :: 0 <= i < |xs| && xs[i] != 0.0 {
      NormalizeDataUnitRange(xs);
    } else {
      NormalizeDataSilence(xs);
    }
  }

  /** What the test helper checks of variant 2: every value lies in [-1, 1],
      and some value has magnitude exactly 1 unless the whole waveform is
      silent. */
  lemma AudioToWaveformV2InUnitRange(probed: Attempt<Format>, requested: Option<U16>)
    requires AudioToWaveformV2(probed, requested).Done?
    ensures var w := AudioToWaveformV2(probed, requested).value;
      && (forall i :: 0 <= i < |w| ==> -1.0 <= w[i] <= 1.0)
      && ((exists i :: 0 <= i < |w| && Abs(w[i]) == 1.0) || (forall i :: 0 <= i < |w| ==> w[i] == 0.0))
  {
    var d := ReadSampleSpec(probed).value;
    var duration := Duration(d);
    var peaks := FilterDataV2(d.samples, duration, requested);
    assert AudioToWaveformV2(probed, requested).value == NormalizeDataV2(peaks);
    PeaksNormalizeIntoUnitRange(peaks);
  }

  /** Normalizing signed values gives values in [-1, 1], with one of
      magnitude 1 among them unless they are all 0. */
  lemma PeaksNormalizeIntoUnitRange(xs: seq<real>)
    ensures forall i :: 0 <= i < |xs| ==> -1.0 <= NormalizeDataV2(xs)[i] <= 1.0
    ensures (exists i :: 0 <= i < |xs| && Abs(NormalizeDataV2(xs)[i]) == 1.0)
         || (forall i :: 0 <= i < |xs| ==> NormalizeDataV2(xs)[i] == 0.0)
  {
    if exists i :: 0 <= i < |xs| && xs[i] != 0.0 {
      NormalizeDataV2UnitRange(xs);
    } else {
      NormalizeDataV2Silence(xs);
    }
  }

  /** One silent second at 100 Hz, reduced at 10 blocks per second by
      variant 1: ten blocks of ten samples, ten zeros after normalizing. */
  lemma SilentSecondAtTenPerSecond()
    ensures NormalizeData(FilterData(seq(100, i => 0.0), 1.0, Some(10))) == seq(10, i => 0.0)
  {
    var zeros := seq(100, i => 0.0);
    assert TargetBlocks(1.0, Some(10)) == 10;
    assert BlockSize(100, 10) == 10;
    var means := FilterData(zeros, 1.0, Some(10));
    CeilDivExact(|means|, 10, 10);
    FilterDataSilence(zeros, 1.0, Some(10));
    NormalizeDataSilence(means);
    assert means == seq(10, i => 0.0);
  }

  /** The same silent second through variant 2: ten zeros. */
  lemma SilentSecondAtTenPerSecondV2()
    ensures NormalizeDataV2(FilterDataV2(seq(100, i => 0.0), 1.0, Some(10))) == seq(10, i => 0.0)
  {
    var zeros := seq(100, i => 0.0);
    assert TargetBlocks(1.0, Some(10)) == 10;
    assert BlockSizeV2(100, 10) == 10;
    var peaks := FilterDataV2(zeros, 1.0, Some(10));
    CeilDivExact(|peaks|, 10, 10);
    FilterDataV2Silence(zeros, 1.0, Some(10));
    NormalizeDataV2Silence(peaks);
    assert peaks == seq(10, i => 0.0);
  }
}
