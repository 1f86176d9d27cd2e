/** The decoder adapter `read_sample` with its helper `process_audio_buffer`:
    pick the first track with a known codec, then pull packets until the
    stream ends, appending each decoded frame's interleaved samples to one
    growing buffer. Probing, the codec registry and the decoder itself belong
    to symphonia; the model receives what they answer as data: the probe
    result, the tracks, and the stream of `next_packet` results, each packet
    carrying what `decode` returned for it. */
module Decoder {
  import opened Samples
  import opened Errors

  /** A symphonia `Result`. */
  datatype Attempt<T> = Ok(value: T) | Err(error: SymphoniaError)

  /** A decoded `AudioBufferRef`, reduced to what the loop reads from it: the
      channel count of its spec, its capacity in frames, and the interleaved
      `f32` samples that `SampleBuffer::copy_interleaved_ref` makes of it. */
  datatype AudioFrame = AudioFrame(channels: nat, capacity: nat, interleaved: seq<real>)

  /** A packet from `next_packet`: the track it belongs to and the answer
      `decoder.decode` gives for it. */
  datatype Packet = Packet(trackId: nat, decoded: Attempt<AudioFrame>)

  /** A codec type: `CODEC_TYPE_NULL` or a known one. */
  datatype Codec = CodecNull | KnownCodec(kind: nat)

  /** A sample rate in Hz; zero is excluded (see README). */
  type PositiveRate = n: nat | n > 0 witness 1

  /** A track of the container: its id, codec, declared sample rate, and
      whether `get_codecs().make` fails for its codec parameters. */
  datatype Track = Track(id: nat, codec: Codec, sampleRate: Option<PositiveRate>, decoderError: Option<SymphoniaError>)

  /** A probed container: its tracks and the results of successive
      `next_packet` calls, in stream order. Symphonia reports the end of the
      stream as an I/O error; a sequence that runs out is read the same way. */
  datatype Format = Format(tracks: seq<Track>, packets: seq<Attempt<Packet>>)

  /** What `read_sample` returns on success: the interleaved buffer, the
      summed frame capacities and the track's sample rate. */
  datatype Decoded = Decoded(samples: seq<real>, sampleCount: nat, sampleRate: PositiveRate)

  /** `sample_count as f32 / sample_rate as f32`, exactly. */
  function Duration(d: Decoded): (seconds: real)
    ensures seconds >= 0.0
    ensures seconds * d.sampleRate as real == d.sampleCount as real
  {
    d.sampleCount as real / d.sampleRate as real
  }

  // ------------------------------------------------------------ track choice

  /** `tracks.iter().find(|t| t.codec_params.codec != CODEC_TYPE_NULL)`:
      the index of the first track with a known codec, if any. */
  function SelectTrack(tracks: seq<Track>): (r: Option<nat>)
    ensures r.None? <==> forall j :: 0 <= j < |tracks| ==> tracks[j].codec == CodecNull
    ensures r.Some? ==> r.value < |tracks| && tracks[r.value].codec != CodecNull
    ensures r.Some? ==> forall j :: 0 <= j < r.value ==> tracks[j].codec == CodecNull
    decreases |tracks|
  {
    if tracks == [] then None
    else if tracks[0].codec != CodecNull then Some(0)
    else
      match SelectTrack(tracks[1..])
      case None => None
      case Some(j) => Some(j + 1)
  }

  // ------------------------------------------------------- the decode loop

  /** How the packet loop ends: at the end of the stream with what it has
      gathered, or with a failure. */
  datatype LoopEnd = EndOfStream(samples: seq<real>, sampleCount: nat) | Stopped(failure: Failure)

  /** The packet loop of `read_sample`, from a state where `sampleCount`
      frames have been counted and `samples` gathered. The loop only
      appends: a successful end keeps the count and the buffer it started
      from as a prefix. It never reports a probe or decoder-creation failure. */
  function Run(packets: seq<Attempt<Packet>>, track: nat, sampleCount: nat, samples: seq<real>): (r: LoopEnd)
    ensures r.EndOfStream? ==>
      && sampleCount <= r.sampleCount
      && |samples| <= |r.samples|
      && r.samples[..|samples|] == samples
    ensures r.Stopped? ==> !r.failure.ProbeFailed? && !r.failure.DecoderCreationFailed?
    decreases |packets|
  {
    if packets == [] then EndOfStream(samples, sampleCount)
    else
      match packets[0]
      case Err(ResetRequired) => Stopped(ResetNotImplemented)
      case Err(IoError(_)) => EndOfStream(samples, sampleCount)
      case Err(e) => Stopped(PacketReadFailed(e))
      case Ok(packet) =>
        if packet.trackId != track then Run(packets[1..], track, sampleCount, samples)
        else
          match packet.decoded
          case Ok(frame) =>
            if frame.channels > 2 then Stopped(TooManyChannels)
            else
              var grown := samples + frame.interleaved;
              var r := Run(packets[1..], track, sampleCount + frame.capacity, grown);
              assert r.EndOfStream? ==> r.samples[..|samples|] == r.samples[..|grown|][..|samples|];
              assert grown[..|samples|] == samples;
              r
          case Err(IoError(_)) => EndOfStream(samples, sampleCount)
          case Err(e) => Stopped(PacketDecodeFailed(e))
  }

  /** Whether the loop goes on past this result of `next_packet`: a packet of
      another track, or a packet of the track that decodes to at most two
      channels. */
  predicate Continues(p: Attempt<Packet>, track: nat) {
    p.Ok? && (p.value.trackId != track || (p.value.decoded.Ok? && p.value.decoded.value.channels <= 2))
  }

  /** The samples the loop appends for a stretch of packets it goes through. */
  function Appended(packets: seq<Attempt<Packet>>, track: nat): seq<real>
    decreases |packets|
  {
    if packets == [] then []
    else
      var p := packets[0];
      (if p.Ok? && p.value.trackId == track && p.value.decoded.Ok? then p.value.decoded.value.interleaved else [])
      + Appended(packets[1..], track)
  }

  /** The frame capacities the loop counts for a stretch of packets it goes through. */
  function Counted(packets: seq<Attempt<Packet>>, track: nat): nat
    decreases |packets|
  {
    if packets == [] then 0
    else
      var p := packets[0];
      (if p.Ok? && p.value.trackId == track && p.value.decoded.Ok? then p.value.decoded.value.capacity else 0)
      + Counted(packets[1..], track)
  }

  /** The verdict of the result the loop stops at, given what it gathered before. */
  function StopAt(p: Attempt<Packet>, track: nat, samples: seq<real>, sampleCount: nat): LoopEnd
    requires !Continues(p, track)
  {
    match p
    case Err(ResetRequired) => Stopped(ResetNotImplemented)
    case Err(IoError(_)) => EndOfStream(samples, sampleCount)
    case Err(e) => Stopped(PacketReadFailed(e))
    case Ok(packet) =>
      match packet.decoded
      case Ok(_) => Stopped(TooManyChannels)
      case Err(IoError(_)) => EndOfStream(samples, sampleCount)
      case Err(e) => Stopped(PacketDecodeFailed(e))
  }

  /** Going through a stretch of packets the loop continues past adds their
      capacities to the count and their samples, in order, after the buffer
      gathered so far, which itself is left unchanged. */
  lemma {:induction false} RunThrough(pre: seq<Attempt<Packet>>, post: seq<Attempt<Packet>>,
                                      track: nat, sampleCount: nat, samples: seq<real>)
    requires forall i :: 0 <= i < |pre| ==> Continues(pre[i], track)
    ensures Run(pre + post, track, sampleCount, samples)
         == Run(post, track, sampleCount + Counted(pre, track), samples + Appended(pre, track))
    decreases |pre|
  {
    if pre == [] {
      assert pre + post == post;
      assert samples + [] == samples;
    } else {
      var p := pre[0];
      assert (pre + post)[0] == p;
      assert (pre + post)[1..] == pre[1..] + post;
      assert Continues(p, track);
      var c, a := 0, [];
      if p.value.trackId == track {
        c, a := p.value.decoded.value.capacity, p.value.decoded.value.interleaved;
      } else {
        assert samples + a == samples;
      }
      assert Counted(pre, track) == c + Counted(pre[1..], track);
      assert Appended(pre, track) == a + Appended(pre[1..], track);
      assert Run(pre + post, track, sampleCount, samples) == Run(pre[1..] + post, track, sampleCount + c, samples + a);
      RunThrough(pre[1..], post, track, sampleCount + c, samples + a);
      assert samples + a + Appended(pre[1..], track) == samples + (a + Appended(pre[1..], track));
    }
  }

  /** The first result the loop does not continue past decides how the loop
      ends; nothing after it is looked at. */
  lemma RunFirstStop(pre: seq<Attempt<Packet>>, stop: Attempt<Packet>, post: seq<Attempt<Packet>>, track: nat)
    requires forall i :: 0 <= i < |pre| ==> Continues(pre[i], track)
    requires !Continues(stop, track)
    ensures Run(pre + [stop] + post, track, 0, [])
         == StopAt(stop, track, Appended(pre, track), Counted(pre, track))
  {
    assert pre + [stop] + post == pre + ([stop] + post);
    RunThrough(pre, [stop] + post, track, 0, []);
    assert ([stop] + post)[0] == stop;
  }

  /** A stream the loop goes all the way through ends successfully with every
      frame of the track, in stream order. */
  lemma RunToEnd(packets: seq<Attempt<Packet>>, track: nat)
    requires forall i :: 0 <= i < |packets| ==> Continues(packets[i], track)
    ensures Run(packets, track, 0, []) == EndOfStream(Appended(packets, track), Counted(packets, track))
  {
    RunThrough(packets, [], track, 0, []);
    assert packets + [] == packets;
  }

  /** The stream with the packets of other tracks taken out. */
  function OwnPackets(packets: seq<Attempt<Packet>>, track: nat): seq<Attempt<Packet>>
    decreases |packets|
  {
    if packets == [] then []
    else if packets[0].Ok? && packets[0].value.trackId != track then OwnPackets(packets[1..], track)
    else [packets[0]] + OwnPackets(packets[1..], track)
  }

  /** Packets of other tracks have no effect: the loop ends the same way on
      the stream without them. */
  lemma {:induction false} RunSkipsOtherTracks(packets: seq<Attempt<Packet>>, track: nat, sampleCount: nat, samples: seq<real>)
    ensures Run(packets, track, sampleCount, samples) == Run(OwnPackets(packets, track), track, sampleCount, samples)
    decreases |packets|
  {
    if packets != [] {
      var own := OwnPackets(packets, track);
      if packets[0].Ok? && packets[0].value.trackId != track {
        RunSkipsOtherTracks(packets[1..], track, sampleCount, samples);
      } else {
        assert own[0] == packets[0];
        assert own[1..] == OwnPackets(packets[1..], track);
        match packets[0]
        case Err(_) =>
        case Ok(packet) =>
          match packet.decoded
          case Ok(frame) =>
            RunSkipsOtherTracks(packets[1..], track, sampleCount + frame.capacity, samples + frame.interleaved);
          case Err(_) =>
      }
    }
  }

  // ------------------------------------------------------------- read_sample

  /** What `read_sample` returns for a probe result, in the order the source
      checks: the probe, the track, the decoder, the sample rate, the loop.
      Its only panics are the missing track and the missing sample rate; a
      probe failure is reported exactly when probing failed; a success
      carries the sample rate of the selected track. */
  function ReadSampleSpec(probed: Attempt<Format>): (r: Outcome<Decoded>)
    ensures r.Panic? ==> r.reason == NoSupportedTrack || r.reason == MissingSampleRate
    ensures (r.Fail? && r.failure.ProbeFailed?) <==> probed.Err?
    ensures r.Done? ==>
      && probed.Ok?
      && SelectTrack(probed.value.tracks).Some?
      && probed.value.tracks[SelectTrack(probed.value.tracks).value].sampleRate == Some(r.value.sampleRate)
  {
    match probed
    case Err(e) => Fail(ProbeFailed(e))
    case Ok(format) =>
      match SelectTrack(format.tracks)
      case None => Panic(NoSupportedTrack)
      case Some(index) =>
        var track := format.tracks[index];
        if track.decoderError.Some? then Fail(DecoderCreationFailed(track.decoderError.value))
        else if track.sampleRate.None? then Panic(MissingSampleRate)
        else
          match Run(format.packets, track.id, 0, [])
          case EndOfStream(samples, sampleCount) => Done(Decoded(samples, sampleCount, track.sampleRate.value))
          case Stopped(failure) => Fail(failure)
  }

  /** With a usable first track and a stream the loop goes all the way
      through, `read_sample` returns every frame of that track, in order,
      with the summed capacities and the track's rate. */
  lemma ReadSampleWholeStream(format: Format)
    requires SelectTrack(format.tracks).Some?
    requires var t := format.tracks[SelectTrack(format.tracks).value];
      t.decoderError.None? && t.sampleRate.Some?
    requires var t := format.tracks[SelectTrack(format.tracks).value];
      forall i :: 0 <= i < |format.packets| ==> Continues(format.packets[i], t.id)
    ensures var t := format.tracks[SelectTrack(format.tracks).value];
      ReadSampleSpec(Ok(format))
        == Done(Decoded(Appended(format.packets, t.id), Counted(format.packets, t.id), t.sampleRate.value))
  {
    var t := format.tracks[SelectTrack(format.tracks).value];
    RunToEnd(format.packets, t.id);
  }

  /** A probed container without a track of known codec makes `read_sample`
      panic at `.expect`, whatever its packets. */
  lemma ReadSampleWithoutTrackPanics(format: Format)
    requires forall j :: 0 <= j < |format.tracks| ==> format.tracks[j].codec == CodecNull
    ensures ReadSampleSpec(Ok(format)) == Panic(NoSupportedTrack)
  {
  }

  /** A decoder that cannot be created for the selected track fails the
      call with that error, whatever the sample rate and the packets: the
      decoder is made before the sample rate is read. */
  lemma ReadSampleDecoderCreationFails(format: Format, e: SymphoniaError)
    requires SelectTrack(format.tracks).Some?
    requires format.tracks[SelectTrack(format.tracks).value].decoderError == Some(e)
    ensures ReadSampleSpec(Ok(format)) == Fail(DecoderCreationFailed(e))
  {
  }

  /** A selected track whose decoder can be made but that declares no sample
      rate makes `read_sample` panic at `.unwrap`, whatever its packets. */
  lemma ReadSampleWithoutRatePanics(format: Format)
    requires SelectTrack(format.tracks).Some?
    requires format.tracks[SelectTrack(format.tracks).value].decoderError.None?
    requires format.tracks[SelectTrack(format.tracks).value].sampleRate.None?
    ensures ReadSampleSpec(Ok(format)) == Panic(MissingSampleRate)
  {
  }

  /** The `Vec<f32>` that `read_sample` fills. */
  class PcmBuffer {
    var samples: seq<real>

    constructor ()
      ensures samples == []
    {
      samples := [];
    }
  }

  /** `process_audio_buffer`: append a frame's interleaved samples to the
      buffer (`extend_from_slice`); what was there before stays as it was.
      The source's `Result` return is always `Ok(())`. */
  method ProcessAudioBuffer(frame: AudioFrame, audioBuffer: PcmBuffer)
    modifies audioBuffer
    ensures audioBuffer.samples == old(audioBuffer.samples) + frame.interleaved
  {
    audioBuffer.samples := audioBuffer.samples + frame.interleaved;
  }

  /** `read_sample`, from the probe on: the packet loop updates the sample
      count and the buffer step by step. */
  method ReadSample(probed: Attempt<Format>) returns (r: Outcome<Decoded>)
    ensures r == ReadSampleSpec(probed)
  {
    if probed.Err? {
      return Fail(ProbeFailed(probed.error));
    }
    var format := probed.value;
    var found := SelectTrack(format.tracks);
    if found.None? {
      return Panic(NoSupportedTrack);
    }
    var track := format.tracks[found.value];
    if track.decoderError.Some? {
      return Fail(DecoderCreationFailed(track.decoderError.value));
    }
    var trackId := track.id;
    var sampleCount: nat := 0;
    var audioBuffer := new PcmBuffer();
    if track.sampleRate.None? {
      return Panic(MissingSampleRate);
    }
    var sampleRate := track.sampleRate.value;
    var packets := format.packets;
    var i := 0;
    while i < |packets|
      invariant 0 <= i <= |packets|
      invariant Run(packets, trackId, 0, []) == Run(packets[i..], trackId, sampleCount, audioBuffer.samples)
      decreases |packets| - i
    {
      assert packets[i..][0] == packets[i] && packets[i..][1..] == packets[i + 1..];
      match packets[i] {
        case Err(ResetRequired) =>
          return Fail(ResetNotImplemented);
        case Err(IoError(_)) =>
          break;
        case Err(e) =>
          return Fail(PacketReadFailed(e));
        case Ok(packet) =>
          if packet.trackId != trackId {
            i := i + 1;
            continue;
          }
          match packet.decoded {
            case Ok(frame) =>
              if frame.channels > 2 {
                return Fail(TooManyChannels);
              }
              sampleCount := sampleCount + frame.capacity;
              ProcessAudioBuffer(frame, audioBuffer);
            case Err(IoError(_)) =>
              break;
            case Err(e) =>
              return Fail(PacketDecodeFailed(e));
          }
      }
      i := i + 1;
    }
    return Done(Decoded(audioBuffer.samples, sampleCount, sampleRate));
  }
}
