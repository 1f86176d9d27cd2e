# waveform-rs core in Dafny

waveform-rs turns an audio file into a short waveform: a sequence of
numbers, by default 100 per second of audio, meant for drawing. The
pipeline in `src/processor.rs` has three stages:

1. **Decoder adapter** (`read_sample`, `process_audio_buffer`). It picks the
   first track whose codec is known. It then pulls packets until the stream
   ends, appends each decoded frame's interleaved `f32` samples to one
   buffer, counts the frames' capacities, and reports the duration
   `sample_count / sample_rate`.
2. **Block reducer**. Both variants cut the buffer into consecutive blocks.
   - `filter_data` uses blocks of `len / target` samples and reduces each
     block to its mean magnitude.
   - `filter_data_v2` uses blocks of `max(1, len / target)` samples and
     reduces each block to its signed peak.
   - In both, `target = floor(duration * rate)`, and the rate defaults to 100.
3. **Normalizer**. `normalize_data` multiplies every value by `1 / max` and
   lands values in [0, 1]. `normalize_data_v2` multiplies by `1 / max|x|`
   and lands values in [-1, 1]. When the extremum is 0, both multiply by 1.

`audio_to_waveform` chains variant 1 of the reducer and the normalizer;
`audio_to_waveform_v2` chains variant 2.

## How the model is built

- `samples.dfy` (module `Samples`): `f32` values modelled as `real`, plus the
  magnitude, sum and scaling operations the reducers and normalizers share.
- `chunking.dfy` (module `Chunking`): `par_chunks(k)` as a function. It is
  proved to cut the buffer into ceil(len / k) pieces in order. Every piece
  but the last has exactly `k` elements, piece `i` is the slice
  `[i*k, (i+1)*k)`, and the pieces concatenate back to the buffer.
- `reducer.dfy` (module `Reducer`): both block reducers. Rayon's parallel
  map is an order-preserving sequential map.
- `normalizer.dfy` (module `Normalizer`): both normalizers. The parallel
  `reduce` is a fold from its identity.
- `errors.dfy` (module `Errors`): the error strings the core returns, and the
  panics it can raise, as data.
- `decoder.dfy` (module `Decoder`): `read_sample` from the probe on.
  - Symphonia's answers are data: the probe result, the tracks, and the
    stream of `next_packet` results, each packet carrying what `decode`
    returned for it.
  - The packet loop is the method `ReadSample`. It keeps a mutable sample
    count and a `PcmBuffer` object that `ProcessAudioBuffer` extends in
    place.
  - `ReadSample` is proved equal to the function `ReadSampleSpec`. Both
    rest on the loop function `Run`.
  - Lemmas about `Run` state what the loop does: it skips packets of other
    tracks, accumulates frames in order, and the first packet it stops at
    decides the result.
- `waveform.dfy` (module `Waveform`): the two entry points, their panics, and
  the end-to-end range properties the tests check.

Where the documented behaviour of the system and the code disagree, the model
follows the code:

- **Tie-break in `filter_data_v2`.** `Iterator::max_by` keeps the last of
  several samples of equal largest magnitude, not the first.
  `Reducer.IsLastPeak` states this choice and `Reducer.LastPeakUnique` shows
  it determines the value.
- **Zero target in variant 2.** Variant 2 also panics when the target is 0.
  The `max(1, ..)` guard applies only after the integer division
  `len / target`, which divides by zero first (`Waveform.WaveformPanics`).
- **Output length.** The output has ceil(len / block_size) entries, which
  is not `floor(duration * rate)` in general. Ten samples asked for four
  blocks give five (`Reducer.FilterDataLengthExceedsTarget`).
- **Sample count.** `sample_count` adds up each frame's capacity (frames
  per channel), not the number of interleaved samples appended.

## Model

| member | source | states |
|---|---|---|
| Chunking.Chunks | src/processor.rs:139-140 | `par_chunks(k)` yields ceil(len / k) pieces, each non-empty and at most `k` long, all but the last exactly `k` long, concatenating back to the buffer |
| Chunking.ChunksAreBlocks | src/processor.rs:139-140 | piece `i` of `par_chunks(k)` is the slice of the buffer from `i*k` to `(i+1)*k`, cut at its end |
| Reducer.SamplesPerSecond | src/processor.rs:135 | the rate is the caller's, or 100 when none is given (no contract of its own; used by `TargetBlocks`) |
| Reducer.TargetBlocks | src/processor.rs:135-136 | the target is the floor of duration times the rate, and the rate is the caller's or 100 |
| Reducer.BlockSize | src/processor.rs:137 | the variant 1 block size is the number of whole targets that fit in the buffer (`k * target <= len < (k + 1) * target`), and it is 0 exactly when the buffer is shorter than the target |
| Reducer.BlockMean | src/processor.rs:141-143 | the mean magnitude of a non-empty block lies between 0 and the block's largest magnitude |
| Reducer.FilterData | src/processor.rs:130-145 | with a block size of `len / target`, there are ceil(len / block size) outputs; output `i` is the mean magnitude of block `i`, which is never empty, and lies between 0 and that block's largest magnitude |
| Reducer.FilterDataLength | src/processor.rs:136-140 | variant 1 gives at least `target` outputs, and exactly `target` when the target divides the buffer length |
| Reducer.FilterDataLengthExceedsTarget | src/processor.rs:137-140 | ten samples at a target of four give five outputs, so the length is not the target in general |
| Reducer.FilterDataSilence | src/processor.rs:139-144 | a silent buffer gives silent block means |
| Reducer.BlockSizeV2 | src/processor.rs:154 | the variant 2 block size `max(1, len / target)` is never 0 |
| Reducer.PeakIndex | src/processor.rs:159-162 | the fold of `max_by` keeps an element of largest magnitude after which no element is as large |
| Reducer.MaxByAbs | src/processor.rs:159-163 | `max_by` on magnitudes is `None` exactly for an empty block, and otherwise the block's last peak, sign kept |
| Reducer.LastPeakUnique | src/processor.rs:162 | a block has only one last peak, so the tie-break fixes the output |
| Reducer.FilterDataV2 | src/processor.rs:147-166 | with a block size of `max(1, len / target)`, there are ceil(len / block size) outputs; output `i` is an element of block `i` of largest magnitude, with its sign, and the last such element |
| Reducer.FilterDataV2Length | src/processor.rs:153-157 | variant 2 gives at least `target` outputs when the buffer holds that many samples, and one output per sample otherwise |
| Reducer.FilterDataV2Silence | src/processor.rs:156-165 | a silent buffer gives silent peaks |
| Reducer.OneBlockForWholeClip | src/processor.rs:130-166 | a one-second clip at one block per second becomes one block spanning the whole buffer, in both variants |
| Normalizer.MaxValue | src/processor.rs:169-172 | the `f32::max` fold from negative infinity has no value exactly for an empty input; otherwise it is an entry that bounds all entries from above |
| Normalizer.Multiplier | src/processor.rs:173-177 | the factor is the reciprocal of a non-zero maximum, 1 for a zero maximum, and 0 (the reciprocal of negative infinity) for an empty input |
| Samples.Scale | src/processor.rs:178 | every entry times one factor, in order: the per-entry `n * multiplier` map of both normalizers (no contract of its own; the normalizers state the per-entry law) |
| Normalizer.NormalizeData | src/processor.rs:168-179 | the output has the length of the input, and output `i` is input `i` times the factor `Multiplier` gives |
| Normalizer.NormalizeDataUnitRange | src/processor.rs:168-178 | for non-negative input with a non-zero entry, every output lies in [0, 1], every entry equal to the maximum becomes exactly 1, and so some output is 1 |
| Normalizer.NormalizeDataKeepsOrder | src/processor.rs:178 | with a positive maximum, strictly larger entries stay strictly larger and equal entries stay equal |
| Normalizer.NormalizeDataSilence | src/processor.rs:173-178 | all-zero input comes back unchanged |
| Samples.MaxAbs | src/processor.rs:182-185 | the fold of magnitudes from 0 bounds every magnitude, is non-negative, and is attained by some entry of a non-empty input |
| Samples.MaxAbsZeroIffSilent | src/processor.rs:182-187 | the largest magnitude is 0 exactly when every entry is 0 |
| Normalizer.MultiplierV2 | src/processor.rs:187-191 | the factor is positive, and 1 when the largest magnitude is 0 |
| Normalizer.MultiplierV2Inverts | src/processor.rs:187-188 | a non-zero largest magnitude times the factor is exactly 1 |
| Normalizer.NormalizeDataV2 | src/processor.rs:181-194 | the output has the length of the input, and output `i` is input `i` times the factor `MultiplierV2` gives |
| Normalizer.NormalizeDataV2KeepsSign | src/processor.rs:187-193 | each output is positive, negative or zero exactly when its input is |
| Normalizer.NormalizeDataV2UnitRange | src/processor.rs:181-193 | for input with a non-zero entry, every output lies in [-1, 1] and some output has magnitude exactly 1 |
| Normalizer.NormalizeDataV2Silence | src/processor.rs:187-193 | all-zero input comes back unchanged |
| Decoder.Duration | src/processor.rs:113 | the duration is non-negative, and duration times the sample rate is the sample count |
| Decoder.SelectTrack | src/processor.rs:61-65 | the chosen track is the first whose codec is not `CODEC_TYPE_NULL`; there is none exactly when every codec is null |
| Decoder.Run | src/processor.rs:77-111 | the packet loop only appends: a successful end keeps the count and buffer it started from as a prefix, and it never reports a probe or decoder-creation failure |
| Decoder.RunThrough | src/processor.rs:90-103 | going through packets the loop continues past adds their frames' capacities to the count and their samples, in order, after the unchanged buffer so far |
| Decoder.RunFirstStop | src/processor.rs:77-111 | the first packet result the loop does not continue past decides the outcome from what came before it. An I/O error ends successfully with that buffer. `ResetRequired` from the reader fails as not implemented. Other read errors and decode errors fail with their cause. More than two channels fails. Later packets are never looked at |
| Decoder.RunToEnd | src/processor.rs:77-111 | a stream the loop goes all the way through ends successfully with every frame of the track in stream order |
| Decoder.RunSkipsOtherTracks | src/processor.rs:90-92 | removing the packets of other tracks does not change how the loop ends |
| Decoder.ReadSampleSpec | src/processor.rs:55-115 | `read_sample` panics only for a missing track or a missing sample rate, reports a probe failure exactly when probing failed, and on success carries the selected track's sample rate |
| Decoder.ReadSampleWholeStream | src/processor.rs:59-115 | with a usable first track and a stream read to its end, `read_sample` returns all that track's samples, the summed capacities and its sample rate |
| Decoder.ReadSampleWithoutTrackPanics | src/processor.rs:61-65 | without a track of known codec, `read_sample` panics, whatever the packets |
| Decoder.ReadSampleDecoderCreationFails | src/processor.rs:67-75 | when no decoder can be made for the selected track, the call fails with that error, whatever the sample rate and the packets: creation is checked before the rate is read |
| Decoder.ReadSampleWithoutRatePanics | src/processor.rs:75 | a selected track with a decoder but no declared sample rate makes the call panic, whatever the packets |
| Errors.Message | src/processor.rs:57-109 | the six error strings `read_sample` returns, each with its cause appended where the source formats one (no contract of its own) |
| Decoder.PcmBuffer.constructor | src/processor.rs:73 | the buffer starts empty |
| Decoder.ProcessAudioBuffer | src/processor.rs:118-128 | the buffer becomes the old buffer followed by the frame's interleaved samples; nothing before changes |
| Decoder.ReadSample | src/processor.rs:59-116 | the imperative loop with its mutable count and buffer returns exactly what `ReadSampleSpec` describes: probe failure first, then the track panic, the decoder failure, the sample-rate panic, then the loop's outcome |
| Waveform.AudioToWaveform | src/processor.rs:16-26 | a failure or panic of `read_sample` is passed on unchanged, and a result exists only when decoding succeeded |
| Waveform.AudioToWaveformV2 | src/processor.rs:32-42 | a failure or panic of `read_sample` is passed on unchanged, and a result exists only when decoding succeeded |
| Waveform.WaveformPanics | src/processor.rs:136-154 | after a successful decode, variant 1 panics exactly when the target is 0 or exceeds the buffer length, and variant 2 exactly when the target is 0 |
| Waveform.EmptyDecodePanics | src/processor.rs:113-137 | a decode that counted no frames makes both variants panic on a zero target |
| Waveform.AudioToWaveformInUnitRange | src/processor.rs:209-215 | every output of `audio_to_waveform` lies in [0, 1], and some output is exactly 1 unless all are 0 |
| Waveform.MeansNormalizeIntoUnitRange | src/processor.rs:168-178 | normalizing non-negative values gives values in [0, 1], including a 1 unless all are 0 |
| Waveform.AudioToWaveformV2InUnitRange | src/processor.rs:289-295 | every output of `audio_to_waveform_v2` lies in [-1, 1], and some output has magnitude exactly 1 unless all are 0 |
| Waveform.PeaksNormalizeIntoUnitRange | src/processor.rs:181-193 | normalizing values gives values in [-1, 1], including one of magnitude 1 unless all are 0 |
| Waveform.SilentSecondAtTenPerSecond | src/processor.rs:130-179 | one silent second of 100 samples at 10 blocks per second gives ten zeros through variant 1 |
| Waveform.SilentSecondAtTenPerSecondV2 | src/processor.rs:147-194 | the same silent second gives ten zeros through variant 2 |

## Left out

- Samples: `f32` is modelled as an exact `real`. The model has no NaN, no
  rounding in `1.0 / max` or `n * multiplier`, no `-0.0`, and no infinity.
  The `partial_cmp(..).unwrap_or(Equal)` fallback for NaN is therefore
  never taken.
- Reducer.TargetBlocks: it does not model the `floor() as usize` cast's
  saturation of huge or non-finite values.
- Reducer.FilterData: its two panics are not modelled inside the function.
  A zero target (division by zero) and a target above the buffer length (a
  zero `par_chunks` size) are preconditions there. `Waveform.AudioToWaveform`
  reports both as panics.
- Reducer.FilterDataV2: a zero target (division by zero) is a precondition
  there. `Waveform.AudioToWaveformV2` reports it as a panic.
- Parallelism: rayon's `par_chunks`, `par_iter` and `reduce` are modelled
  as their sequential, order-preserving equivalents. The scheduling is not
  modelled.
- Decoder.ReadSample: it starts from the probe's answer, not from the raw
  bytes. The in-memory cursor, `MediaSourceStream`, the format `Hint`, the
  options structs and the probe itself are symphonia's and are not
  modelled.
- Symphonia decoding: the decoder is stateful. The model takes the answer it
  gives for each packet as part of that packet.
- Decoder creation: whether `get_codecs().make` fails for a track is given
  as data on the track.
- Decoder.ProcessAudioBuffer: `SampleBuffer::new` and `copy_interleaved_ref`
  belong to symphonia. A frame's interleaved samples are given as data, and
  the model does not relate their number to the frame's capacity and
  channel count.
- Decoder.Duration: the sample rate is typed as positive. A declared rate of
  0 would give an infinite or NaN `f32` duration, which `real` cannot
  express. The `u64` and `f32` conversions of the count are exact in the
  model.
- Integer width: the `u64` sample count and the `usize` lengths are
  unbounded in the model. Overflow, which would need more than 2^64
  frames, is not modelled.
- Errors.Describe: symphonia's `Display` text is taken as the error's
  description. The wording for a reset request is the collaborator's, not
  this repository's.
- `src/lib.rs` is not part of this model. It is wasm-bindgen glue that maps
  the error string to a `JsValue` and installs a panic hook.
- The tests read mock audio files from disk, which is I/O and is left out.
  Their helpers check that some output is 1 (or has magnitude 1) with no
  exception for silence. `Waveform.AudioToWaveformInUnitRange` and
  `Waveform.AudioToWaveformV2InUnitRange` state that promise together with
  the all-zero case, where it does not hold.
