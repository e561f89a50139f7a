/** What a frame sounds like: the mix said without its loops (`next_opus_frame` and `GainEnvelope` of
    `src/audio_pipeline.rs`). */
module Mixing {
  import opened Bytes
  import opened AudioSend
  import opened GainEnvelope

  /** The samples sent by a tick with a working encoder. */
  function Sent(s: State): seq<sample>
    requires Next(s, true).1.Encoded?
  {
    Next(s, true).1.pcm
  }

  /** Speech filled up to a frame. */
  function Padded(tts: seq<sample>): seq<sample>
    requires |tts| <= 960
  {
    tts + seq(960 - |tts|, i => 0)
  }

  lemma {:induction false} PlayedTtsFits(s: State)
    ensures |PlayedTts(s)| <= 960
  {
    GateKeeps(s);
  }

  lemma {:induction false} SentIsMixed(s: State)
    requires PlayedTts(s) != [] || HasMusic(s)
    ensures Next(s, true).1.Encoded? && |Sent(s)| == 960
    ensures forall i | 0 <= i < 960 :: Sent(s)[i] == MixedSample(PlayedTts(s), PlayedMusic(s), s.gain, i)
  {
    TickConserves(s, true);
    if HasMusic(s) { MusicNeverWaits(s); }
  }

  /** At full gain music goes out as it came in. */
  lemma {:induction false} FullGainPlaysMusic(s: State)
    requires HasMusic(s) && PlayedTts(s) == [] && s.gain.current == 1.0 == s.gain.target
    ensures Next(s, true).1 == Encoded(s.music[..960])
  {
    SentIsMixed(s);
    MusicNeverWaits(s);
    forall i | 0 <= i < 960 ensures Sent(s)[i] == s.music[i] {
      AtRest(s.gain, i);
      assert s.music[i] as real * 1.0 == s.music[i] as real;
    }
    assert Sent(s) == s.music[..960];
  }

  lemma {:induction false} SilentSample(tts: seq<sample>, music: seq<sample>, g: Gain, i: nat)
    requires music != [] ==> g.current == 0.0 == g.target
    ensures MixedSample(tts, music, g, i) == if i < |tts| then tts[i] else 0
  {
    if i < |music| {
      AtRest(g, i);
      assert music[i] as real * 0.0 == 0.0;
    }
  }

  /** Without music, or with music faded to nothing, speech goes out as it came in, filled up with zeros. */
  lemma {:induction false} SpeechAloneIsPadded(s: State)
    requires PlayedTts(s) != [] || HasMusic(s)
    requires HasMusic(s) ==> s.gain.current == 0.0 == s.gain.target
    ensures |PlayedTts(s)| <= 960 && Next(s, true).1 == Encoded(Padded(PlayedTts(s)))
  {
    PlayedTtsFits(s);
    SentIsMixed(s);
    if HasMusic(s) { MusicNeverWaits(s); }
    var tts := PlayedTts(s);
    forall i | 0 <= i < 960 ensures Sent(s)[i] == Padded(tts)[i] {
      SilentSample(tts, PlayedMusic(s), s.gain, i);
    }
    assert Sent(s) == Padded(tts);
  }

  /** `out` is `x` without its fraction. */
  predicate WithoutFraction(x: real, out: int) {
    if x >= 0.0 then 0.0 <= out as real <= x < (out + 1) as real
    else (out - 1) as real < x <= out as real <= 0.0
  }

  lemma {:induction false} Scaled(m: real, level: real)
    requires 0.0 <= level <= 1.0
    ensures m >= 0.0 ==> 0.0 <= m * level <= m
    ensures m <= 0.0 ==> m <= m * level <= 0.0
  {
    ScaledUp(if m >= 0.0 then m else -m, level);
    assert (-m) * level == -(m * level);
  }

  lemma ScaledUp(m: real, level: real)
    requires 0.0 <= level <= 1.0 && m >= 0.0
    ensures 0.0 <= m * level <= m
  {
    assert m * (1.0 - level) >= 0.0;
    assert m * (1.0 - level) == m - m * level;
  }

  lemma {:induction false} TruncateDropsFraction(x: real)
    ensures WithoutFraction(x, Truncate(x))
  {
  }

  lemma {:induction false} FractionKeepsRange(m: int, x: real, out: int)
    requires WithoutFraction(x, out)
    requires m >= 0 ==> 0.0 <= x <= m as real
    requires m <= 0 ==> m as real <= x <= 0.0
    ensures m >= 0 ==> 0 <= out <= m
    ensures m <= 0 ==> m <= out <= 0
  {
  }

  /** The product of a sample and a gain, and its range. */
  lemma {:induction false} ScaledSample(m: int, level: real) returns (x: real)
    requires 0.0 <= level <= 1.0
    ensures x == (m as real) * level
    ensures m >= 0 ==> 0.0 <= x <= m as real
    ensures m <= 0 ==> m as real <= x <= 0.0
  {
    var r := m as real;
    Scaled(r, level);
    x := r * level;
  }

  lemma {:induction false} GainIsTruncation(g: Gain, m: sample, x: real)
    requires x == (m as real) * g.current && -32768 <= Truncate(x) <= 32767
    ensures ApplyGain(g, m) == Truncate(x)
  {
  }

  /** `out` is the sample `m` at this level: without its fraction, no louder, and of the same sign. */
  predicate IsScaled(m: int, level: real, out: int) {
    && WithoutFraction((m as real) * level, out)
    && (m >= 0 ==> 0 <= out <= m) && (m <= 0 ==> m <= out <= 0)
  }

  lemma {:induction false} GainedSample(g: Gain, m: sample, level: real)
    requires level == g.current && 0.0 <= level <= 1.0
    ensures IsScaled(m, level, ApplyGain(g, m))
  {
    var x := ScaledSample(m, level);
    TruncateDropsFraction(x);
    FractionKeepsRange(m, x, Truncate(x));
    GainIsTruncation(g, m, x);
  }

  /** A music sample behind its place in the frame. */
  lemma {:induction false} MusicSampleSent(s: State, i: nat)
    requires HasMusic(s) && PlayedTts(s) == [] && i < 960
    ensures Next(s, true).1.Encoded? && |Sent(s)| == 960
    ensures Sent(s)[i] == ApplyGain(GainAfter(s.gain, i), s.music[i])
  {
    SentIsMixed(s);
    MusicNeverWaits(s);
  }

  /** Anywhere in a fade, music without speech is each sample times the level, without the fraction. */
  lemma {:induction false} GainScalesMusic(s: State, from: real, target: real, ms: u32, before: nat, i: nat)
    requires HasMusic(s) && PlayedTts(s) == [] && i < 960
    requires 0.0 <= from <= 1.0 && 0.0 <= target <= 1.0 && (ms == 0 ==> from == target)
    requires s.gain == GainAfter(NewGain(from, target, ms), before)
    ensures Next(s, true).1.Encoded? && |Sent(s)| == 960
    ensures 0.0 <= LevelAt(from, target, ms, before + i) <= 1.0
    ensures IsScaled(s.music[i], LevelAt(from, target, ms, before + i), Sent(s)[i])
  {
    MusicSampleSent(s, i);
    LevelInFade(s.gain, from, target, ms, before, i);
    GainedSample(GainAfter(s.gain, i), s.music[i], LevelAt(from, target, ms, before + i));
  }

  lemma {:induction false} LevelInFade(g: Gain, from: real, target: real, ms: u32, before: nat, i: nat)
    requires 0.0 <= from <= 1.0 && 0.0 <= target <= 1.0 && (ms == 0 ==> from == target)
    requires g == GainAfter(NewGain(from, target, ms), before)
    ensures GainAfter(g, i).current == LevelAt(from, target, ms, before + i)
    ensures 0.0 <= LevelAt(from, target, ms, before + i) <= 1.0
  {
    GainAfterAdd(NewGain(from, target, ms), before, i);
    FadeLine(from, target, ms, before + i);
    LevelBetween(from, target, ms, before + i);
  }

  /** More gain is never less sound. */
  lemma {:induction false} GainGrows(m: int, level1: real, level2: real, out1: int, out2: int)
    requires 0.0 <= level1 <= level2 <= 1.0
    requires IsScaled(m, level1, out1) && IsScaled(m, level2, out2)
    ensures m >= 0 ==> 0 <= out1 <= out2
    ensures m <= 0 ==> out2 <= out1 <= 0
  {
    var x1 := ScaledSample(m, level1);
    var x2 := ScaledSample(m, level2);
    var gap := ScaledSample(m, level2 - level1);
    Distribute(m as real, level1, level2);
    FractionsOrdered(m, x1, x2, out1, out2);
  }

  lemma Distribute(m: real, level1: real, level2: real)
    ensures m * level2 - m * level1 == m * (level2 - level1)
  {
  }

  lemma {:induction false} FractionsOrdered(m: int, x1: real, x2: real, out1: int, out2: int)
    requires WithoutFraction(x1, out1) && WithoutFraction(x2, out2)
    requires m >= 0 ==> 0.0 <= x1 <= x2
    requires m <= 0 ==> x2 <= x1 <= 0.0
    ensures m >= 0 ==> 0 <= out1 <= out2
    ensures m <= 0 ==> out2 <= out1 <= 0
  {
  }

  /** With speech over it, each sample is the sum of what either alone would send, cut off at the ends of the range. */
  lemma {:induction false} SpeechIsAdded(s: State, i: nat)
    requires HasMusic(s) && i < 960
    ensures Next(s, true).1.Encoded? && |Sent(s)| == 960
    ensures Next(s.(pcm := []), true).1.Encoded? && |Sent(s.(pcm := []))| == 960
    ensures var sum: int := (Sent(s.(pcm := []))[i] as int) + if i < |PlayedTts(s)| then PlayedTts(s)[i] as int else 0;
            && (-32768 <= sum <= 32767 ==> Sent(s)[i] == sum)
            && (sum > 32767 ==> Sent(s)[i] == 32767)
            && (sum < -32768 ==> Sent(s)[i] == -32768)
  {
    var alone := s.(pcm := []);
    SentIsMixed(s);
    SentIsMixed(alone);
    MusicNeverWaits(s);
    MusicNeverWaits(alone);
    assert PlayedTts(alone) == [];
    GateKeeps(alone);
  }

  /** Speech over playable music does not wait either: its next 960 samples, or what there is of them. */
  lemma {:induction false} SpeechOverMusicNeverWaits(s: State)
    requires HasMusic(s)
    ensures PlayedTts(s) == s.pcm[..Min(960, |s.pcm|)]
  {
    GateKeeps(s);
  }
}
