/** The object of `src/audio_pipeline.rs` that holds the outbound buffers. Every method is proved against the
    step of the same name in `AudioSend`. */
module AudioPipeline {
  import opened Bytes
  import opened AudioSend
  import S = AudioSend

  class AudioSendState {
    var pcmBuffer: seq<sample>
    var musicBuffer: seq<sample>
    var musicGain: Gain
    var musicOutputSuppressed: bool
    var speaking: bool
    var trailingSilenceFrames: u32
    var partialTtsStallTicks: u32
    var ttsPrebufferSatisfied: bool
    var ttsPrebufferStallTicks: u32
    var ttsPrebufferLastLen: nat

    function AsState(): State
      reads this
    {
      State(pcmBuffer, musicBuffer, musicGain, musicOutputSuppressed, speaking,
            trailingSilenceFrames, partialTtsStallTicks, ttsPrebufferSatisfied, ttsPrebufferStallTicks, ttsPrebufferLastLen)
    }

    constructor ()
      ensures AsState() == INITIAL
    {
      pcmBuffer, musicBuffer := [], [];
      musicGain := NewGain(1.0, 1.0, 0);
      musicOutputSuppressed, speaking := false, false;
      trailingSilenceFrames, partialTtsStallTicks := 0, 0;
      ttsPrebufferSatisfied, ttsPrebufferStallTicks, ttsPrebufferLastLen := false, 0, 0;
    }

    method PushPcm(samples: seq<sample>)
      modifies this
      ensures AsState() == S.PushPcm(old(AsState()), samples)
    {
      pcmBuffer := pcmBuffer + samples;
      if |pcmBuffer| > MAX_PCM_BUFFER_SAMPLES {
        pcmBuffer := pcmBuffer[..MAX_PCM_BUFFER_SAMPLES];
      }
      trailingSilenceFrames := 0;
      partialTtsStallTicks := 0;
    }

    method PushMusicPcm(samples: seq<sample>)
      modifies this
      ensures AsState() == S.PushMusicPcm(old(AsState()), samples)
    {
      musicBuffer := musicBuffer + samples;
      trailingSilenceFrames := 0;
    }

    method Suppress()
      modifies this
      ensures AsState() == S.Suppress(old(AsState()))
    {
      musicOutputSuppressed := true;
    }

    method Resume()
      modifies this
      ensures AsState() == S.Resume(old(AsState()))
    {
      musicOutputSuppressed := false;
      trailingSilenceFrames := 0;
    }

    method Clear()
      modifies this
      ensures AsState() == S.Clear(old(AsState()))
    {
      pcmBuffer, musicBuffer := [], [];
      musicOutputSuppressed := false;
      trailingSilenceFrames := MAX_TRAILING_SILENCE;
      partialTtsStallTicks := 0;
      ttsPrebufferSatisfied := false;
      ttsPrebufferStallTicks := 0;
      ttsPrebufferLastLen := 0;
    }

    method ClearTts()
      modifies this
      ensures AsState() == S.ClearTts(old(AsState()))
    {
      pcmBuffer := [];
      partialTtsStallTicks := 0;
      ttsPrebufferSatisfied := false;
      ttsPrebufferStallTicks := 0;
      ttsPrebufferLastLen := 0;
    }

    method ClearMusic()
      modifies this
      ensures AsState() == S.ClearMusic(old(AsState()))
    {
      musicBuffer := [];
      musicOutputSuppressed := false;
      trailingSilenceFrames := MAX_TRAILING_SILENCE;
    }

    method SetMusicGain(target: real, fadeMs: u32)
      modifies this
      ensures AsState() == S.SetMusicGain(old(AsState()), target, fadeMs)
    {
      var current := if fadeMs == 0 then target else musicGain.current;
      musicGain := NewGain(current, target, fadeMs);
    }

    method BeginMusicFadeIn(fadeMs: u32)
      modifies this
      ensures AsState() == S.BeginMusicFadeIn(old(AsState()), fadeMs)
    {
      musicGain := NewGain(0.0, 1.0, fadeMs);
    }

    /** Gained music into the mixing array; the envelope advances with every sample. */
    method MixMusic(mixed: array<int>, music: seq<sample>)
      requires mixed.Length == AUDIO_FRAME_SAMPLES && |music| <= AUDIO_FRAME_SAMPLES
      requires forall k | 0 <= k < AUDIO_FRAME_SAMPLES :: mixed[k] == 0
      modifies this`musicGain, mixed
      ensures musicGain == GainAfter(old(musicGain), |music|)
      ensures forall k | 0 <= k < AUDIO_FRAME_SAMPLES :: mixed[k] == MusicPart(music, old(musicGain), k)
    {
      var i := 0;
      while i < |music|
        invariant i <= |music|
        invariant musicGain == GainAfter(old(musicGain), i)
        invariant forall k | 0 <= k < AUDIO_FRAME_SAMPLES :: mixed[k] == if k < i then MusicPart(music, old(musicGain), k) else 0
      {
        mixed[i] := mixed[i] + ApplyGain(musicGain, music[i]);
        musicGain := AdvanceGain(musicGain);
        i := i + 1;
      }
    }

    method AddTts(mixed: array<int>, tts: seq<sample>)
      requires mixed.Length == AUDIO_FRAME_SAMPLES && |tts| <= AUDIO_FRAME_SAMPLES
      modifies mixed
      ensures forall k | 0 <= k < AUDIO_FRAME_SAMPLES :: mixed[k] == old(mixed[k]) + if k < |tts| then tts[k] else 0
    {
      var i := 0;
      while i < |tts|
        invariant i <= |tts|
        invariant forall k | 0 <= k < AUDIO_FRAME_SAMPLES :: mixed[k] == old(mixed[k]) + if k < i then tts[k] else 0
      {
        mixed[i] := mixed[i] + tts[i];
        i := i + 1;
      }
    }

    /** Music first, then speech on top, then the clamp. */
    method MixFrame(music: seq<sample>, tts: seq<sample>) returns (pcm: seq<sample>)
      requires |music| <= AUDIO_FRAME_SAMPLES && |tts| <= AUDIO_FRAME_SAMPLES
      modifies this`musicGain
      ensures musicGain == GainAfter(old(musicGain), |music|)
      ensures pcm == Mixed(tts, music, old(musicGain))
    {
      ghost var gain := musicGain;
      var mixed := new int[AUDIO_FRAME_SAMPLES](_ => 0);
      MixMusic(mixed, music);
      AddTts(mixed, tts);
      var sums := mixed[..];
      pcm := seq(AUDIO_FRAME_SAMPLES, k requires 0 <= k < |sums| => ClampSample(sums[k]));
      assert pcm == Mixed(tts, music, gain) by {
        forall k | 0 <= k < AUDIO_FRAME_SAMPLES ensures pcm[k] == Mixed(tts, music, gain)[k] {
          assert sums[k] == MusicPart(music, gain, k) + if k < |tts| then tts[k] else 0;
        }
      }
    }

    /** The prebuffer gate at the head of a tick. */
    method PassGate() returns (open: bool)
      modifies this
      ensures (AsState(), open) == S.PassGate(old(AsState()))
    {
      var availableTts := |pcmBuffer|;
      var hasMusic := !musicOutputSuppressed && |musicBuffer| >= AUDIO_FRAME_SAMPLES;
      if !ttsPrebufferSatisfied && availableTts > 0 && availableTts < TTS_PREBUFFER_SAMPLES {
        if availableTts > ttsPrebufferLastLen {
          ttsPrebufferStallTicks := 0;
        } else {
          ttsPrebufferStallTicks := SatInc(ttsPrebufferStallTicks);
        }
        ttsPrebufferLastLen := availableTts;
        if ttsPrebufferStallTicks < TTS_PREBUFFER_STALL_TICKS && !hasMusic {
          partialTtsStallTicks := 0;
          return false;
        }
        ttsPrebufferSatisfied := true;
      }
      if availableTts >= TTS_PREBUFFER_SAMPLES && !ttsPrebufferSatisfied {
        ttsPrebufferSatisfied := true;
        ttsPrebufferStallTicks := 0;
        ttsPrebufferLastLen := 0;
      }
      return true;
    }

    method NextOpusFrame(encodes: bool) returns (frame: Frame)
      modifies this
      ensures (AsState(), frame) == Next(old(AsState()), encodes)
    {
      var open := PassGate();
      if !open {
        return Nothing;
      }
      ghost var passed := AsState();
      var availableTts := |pcmBuffer|;
      var hasMusic := !musicOutputSuppressed && |musicBuffer| >= AUDIO_FRAME_SAMPLES;
      var hasFullTts := availableTts >= AUDIO_FRAME_SAMPLES;
      var hasPartialTts := availableTts > 0 && availableTts < AUDIO_FRAME_SAMPLES;
      if hasFullTts {
        partialTtsStallTicks := 0;
      } else if hasPartialTts {
        partialTtsStallTicks := SatInc(partialTtsStallTicks);
      } else {
        partialTtsStallTicks := 0;
      }
      var flushPartialTts := hasPartialTts && (hasMusic || partialTtsStallTicks >= PARTIAL_TTS_FLUSH_TICKS);
      var ttsSamplesToTake := if hasFullTts then AUDIO_FRAME_SAMPLES else if flushPartialTts then availableTts else 0;
      var hasTts := ttsSamplesToTake > 0;
      ghost var counted := AsState();
      assert counted == CountPartial(passed);
      assert ttsSamplesToTake == TtsTake(counted) && hasMusic == HasMusic(counted);

      if hasTts || hasMusic {
        var musicSamplesToTake := if hasMusic then AUDIO_FRAME_SAMPLES else 0;
        var music, tts := musicBuffer[..musicSamplesToTake], pcmBuffer[..ttsSamplesToTake];
        musicBuffer := musicBuffer[musicSamplesToTake..];
        pcmBuffer := pcmBuffer[ttsSamplesToTake..];
        var pcm := MixFrame(music, tts);
        if !encodes {
          return Nothing;
        }
        speaking := true;
        trailingSilenceFrames := 0;
        partialTtsStallTicks := 0;
        return Encoded(pcm);
      }
      if hasPartialTts {
        return Nothing;
      }
      if trailingSilenceFrames < MAX_TRAILING_SILENCE {
        trailingSilenceFrames := trailingSilenceFrames + 1;
        return Silence;
      }
      if speaking {
        speaking := false;
        ttsPrebufferSatisfied := false;
        ttsPrebufferStallTicks := 0;
        ttsPrebufferLastLen := 0;
      }
      return Nothing;
    }
  }
}
