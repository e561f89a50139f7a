/** The outbound audio buffers and the 20 ms frame builder of `src/audio_pipeline.rs`.

    Speech and music wait in two FIFO buffers. A tick takes at most 960 samples of each, mixes them and
    hands them to the encoder. `encodes` says whether the encoder succeeds on this tick. */
module AudioSend {
  import opened Bytes

  type sample = x: int | -32768 <= x < 32768

  const AUDIO_FRAME_SAMPLES: nat := 960
  const MAX_PCM_BUFFER_SAMPLES: nat := 720_000
  const MAX_MUSIC_BUFFER_SAMPLES: nat := 96_000
  const MAX_TRAILING_SILENCE: nat := 5
  const PARTIAL_TTS_FLUSH_TICKS: nat := 2
  const TTS_PREBUFFER_SAMPLES: nat := 9_600
  const TTS_PREBUFFER_STALL_TICKS: nat := 3

  function SatInc(x: u32): u32 {
    Min(x + 1, 0xFFFF_FFFF)
  }

  function ClampSample(x: int): sample {
    Max(-32768, Min(x, 32767))
  }

  // ---------------------------------------------------------------- the music gain envelope, over reals

  datatype Gain = Gain(current: real, target: real, step: real)

  function NewGain(current: real, target: real, fadeMs: u32): Gain {
    Gain(current, target, if fadeMs == 0 then 0.0 else (target - current) / (48.0 * (fadeMs as real)))
  }

  function Truncate(x: real): int {
    if x >= 0.0 then x.Floor else -((-x).Floor)
  }

  function ApplyGain(g: Gain, s: sample): sample {
    ClampSample(Truncate(s as real * g.current))
  }

  function AdvanceGain(g: Gain): Gain {
    if (g.step > 0.0 && g.current < g.target) || (g.step < 0.0 && g.current > g.target) then
      var next := g.current + g.step;
      if (g.step > 0.0 && next > g.target) || (g.step < 0.0 && next < g.target) then g.(current := g.target)
      else g.(current := next)
    else g
  }

  function GainAfter(g: Gain, samples: nat): Gain {
    if samples == 0 then g else AdvanceGain(GainAfter(g, samples - 1))
  }

  predicate GainComplete(g: Gain) {
    -0.0001 < g.current - g.target < 0.0001
  }

  // ---------------------------------------------------------------- specification

  datatype State = State(
    pcm: seq<sample>,
    music: seq<sample>,
    gain: Gain,
    suppressed: bool,
    speaking: bool,
    trailingSilence: u32,
    partialStall: u32,
    prebufferSatisfied: bool,
    prebufferStall: u32,
    prebufferLastLen: nat)

  const INITIAL := State([], [], NewGain(1.0, 1.0, 0), false, false, 0, 0, false, 0, 0)

  /** What a tick sends: an encoded frame of 960 mixed samples, comfort noise, or nothing. */
  datatype Frame = Encoded(pcm: seq<sample>) | Silence | Nothing

  function Take<T>(s: seq<T>, n: nat): seq<T> {
    if n <= |s| then s[..n] else s
  }

  function PushPcm(s: State, samples: seq<sample>): State {
    s.(pcm := Take(s.pcm + samples, MAX_PCM_BUFFER_SAMPLES), trailingSilence := 0, partialStall := 0)
  }

  function PushMusicPcm(s: State, samples: seq<sample>): State {
    s.(music := s.music + samples, trailingSilence := 0)
  }

  predicate CanAcceptMusicChunk(s: State) {
    |s.music| + AUDIO_FRAME_SAMPLES <= MAX_MUSIC_BUFFER_SAMPLES
  }

  function Suppress(s: State): State {
    s.(suppressed := true)
  }

  function Resume(s: State): State {
    s.(suppressed := false, trailingSilence := 0)
  }

  function Clear(s: State): State {
    s.(pcm := [], music := [], suppressed := false, trailingSilence := MAX_TRAILING_SILENCE, partialStall := 0,
       prebufferSatisfied := false, prebufferStall := 0, prebufferLastLen := 0)
  }

  function ClearTts(s: State): State {
    s.(pcm := [], partialStall := 0, prebufferSatisfied := false, prebufferStall := 0, prebufferLastLen := 0)
  }

  function ClearMusic(s: State): State {
    s.(music := [], suppressed := false, trailingSilence := MAX_TRAILING_SILENCE)
  }

  function SetMusicGain(s: State, target: real, fadeMs: u32): State {
    s.(gain := NewGain(if fadeMs == 0 then target else s.gain.current, target, fadeMs))
  }

  function BeginMusicFadeIn(s: State, fadeMs: u32): State {
    s.(gain := NewGain(0.0, 1.0, fadeMs))
  }

  predicate FadeOutComplete(s: State) {
    GainComplete(s.gain) && s.gain.target < 0.001
  }

  predicate TtsJustDrained(s: State) {
    !s.speaking && s.pcm == [] && s.trailingSilence >= MAX_TRAILING_SILENCE && !s.prebufferSatisfied
  }

  predicate HasMusic(s: State) {
    !s.suppressed && |s.music| >= AUDIO_FRAME_SAMPLES
  }

  /** The prebuffer gate: hold a short utterance back until it is long enough or stops growing. */
  function PassGate(s: State): (State, bool) {
    var n := |s.pcm|;
    if !s.prebufferSatisfied && 0 < n < TTS_PREBUFFER_SAMPLES then
      var stall := if n > s.prebufferLastLen then 0 else SatInc(s.prebufferStall);
      var s1 := s.(prebufferStall := stall, prebufferLastLen := n);
      if stall < TTS_PREBUFFER_STALL_TICKS && !HasMusic(s) then (s1.(partialStall := 0), false)
      else (s1.(prebufferSatisfied := true), true)
    else if n >= TTS_PREBUFFER_SAMPLES && !s.prebufferSatisfied then
      (s.(prebufferSatisfied := true, prebufferStall := 0, prebufferLastLen := 0), true)
    else (s, true)
  }

  function CountPartial(s: State): State {
    s.(partialStall := if 0 < |s.pcm| < AUDIO_FRAME_SAMPLES then SatInc(s.partialStall) else 0)
  }

  /** How many speech samples the tick takes. */
  function TtsTake(s: State): nat {
    if |s.pcm| >= AUDIO_FRAME_SAMPLES then AUDIO_FRAME_SAMPLES
    else if |s.pcm| > 0 && (HasMusic(s) || s.partialStall >= PARTIAL_TTS_FLUSH_TICKS) then |s.pcm|
    else 0
  }

  function MusicTake(s: State): nat {
    if HasMusic(s) then AUDIO_FRAME_SAMPLES else 0
  }

  function MusicPart(music: seq<sample>, g: Gain, i: nat): int {
    if i < |music| then ApplyGain(GainAfter(g, i), music[i]) else 0
  }

  function MixedSample(tts: seq<sample>, music: seq<sample>, g: Gain, i: nat): sample {
    ClampSample(MusicPart(music, g, i) + if i < |tts| then tts[i] else 0)
  }

  function Mixed(tts: seq<sample>, music: seq<sample>, g: Gain): seq<sample> {
    seq(AUDIO_FRAME_SAMPLES, i requires 0 <= i < AUDIO_FRAME_SAMPLES => MixedSample(tts, music, g, i))
  }

  /** The part of a tick behind the gate that has something to play. */
  function Play(s: State, encodes: bool): (State, Frame) {
    var t, m := TtsTake(s), MusicTake(s);
    var s1 := s.(pcm := s.pcm[t..], music := s.music[m..], gain := GainAfter(s.gain, m));
    if !encodes then (s1, Nothing)
    else (s1.(speaking := true, trailingSilence := 0, partialStall := 0), Encoded(Mixed(s.pcm[..t], s.music[..m], s.gain)))
  }

  /** The part of a tick behind the gate that has nothing to play. */
  function Rest(s: State): (State, Frame) {
    if s.pcm != [] then (s, Nothing)
    else if s.trailingSilence < MAX_TRAILING_SILENCE then (s.(trailingSilence := s.trailingSilence + 1), Silence)
    else if s.speaking then
      (s.(speaking := false, prebufferSatisfied := false, prebufferStall := 0, prebufferLastLen := 0), Nothing)
    else (s, Nothing)
  }

  function Next(s: State, encodes: bool): (State, Frame) {
    var (s1, open) := PassGate(s);
    if !open then (s1, Nothing)
    else
      var s2 := CountPartial(s1);
      if TtsTake(s2) > 0 || HasMusic(s2) then Play(s2, encodes) else Rest(s2)
  }

  // ---------------------------------------------------------------- what a tick consumes

  /** Speech and music samples that leave the buffers on a tick, in order. */
  function PlayedTts(s: State): seq<sample> {
    var (s1, open) := PassGate(s);
    if open then s.pcm[..TtsTake(CountPartial(s1))] else []
  }

  function PlayedMusic(s: State): seq<sample> {
    if PassGate(s).1 && HasMusic(s) then s.music[..AUDIO_FRAME_SAMPLES] else []
  }

  /** The gate and the stall counter look at the buffers but do not touch them. */
  lemma {:induction false} GateKeeps(s: State)
    ensures var g := CountPartial(PassGate(s).0);
            g.pcm == s.pcm && g.music == s.music && g.gain == s.gain && g.suppressed == s.suppressed
  {
  }

  lemma {:induction false} PlayTakes(g: State, encodes: bool)
    ensures var (s', frame) := Play(g, encodes);
            && g.pcm == g.pcm[..TtsTake(g)] + s'.pcm
            && g.music == g.music[..MusicTake(g)] + s'.music
            && s'.suppressed == g.suppressed
            && frame == if encodes then Encoded(Mixed(g.pcm[..TtsTake(g)], g.music[..MusicTake(g)], g.gain)) else Nothing
  {
  }

  /** A tick takes from the front and adds nothing; an encoded frame is the mix of what it took. */
  lemma {:induction false} TickConserves(s: State, encodes: bool)
    ensures var (s', frame) := Next(s, encodes);
            && s.pcm == PlayedTts(s) + s'.pcm
            && s.music == PlayedMusic(s) + s'.music
            && s'.suppressed == s.suppressed
            && (frame.Encoded? ==> frame.pcm == Mixed(PlayedTts(s), PlayedMusic(s), s.gain))
            && (frame.Encoded? <==> encodes && (PlayedTts(s) != [] || PlayedMusic(s) != []))
  {
    var (s1, open) := PassGate(s);
    var g := CountPartial(s1);
    GateKeeps(s);
    if open && (TtsTake(g) > 0 || HasMusic(g)) {
      PlayTakes(g, encodes);
      assert g.music[..0] == [];
      assert PlayedMusic(s) == g.music[..MusicTake(g)];
    } else {
      assert s.pcm[..0] == [] && [] + s.pcm == s.pcm && [] + s.music == s.music;
    }
  }

  /** Playable music always plays its next 960 samples: no state of the speech gate delays it. */
  lemma {:induction false} MusicNeverWaits(s: State)
    requires HasMusic(s)
    ensures PlayedMusic(s) == s.music[..AUDIO_FRAME_SAMPLES]
    ensures Next(s, true).1.Encoded?
  {
  }

  // ---------------------------------------------------------------- runs

  datatype Op =
    | OpPushPcm(samples: seq<sample>)
    | OpPushMusic(samples: seq<sample>)
    | OpSuppress
    | OpResume
    | OpTick(encodes: bool)

  /** A state with what went in and what came out since the buffers were last cleared. */
  datatype Ledger = Ledger(s: State, ttsIn: seq<sample>, ttsOut: seq<sample>, musicIn: seq<sample>, musicOut: seq<sample>)

  /** What `push_pcm` keeps of a push: the newest samples beyond the cap are dropped. */
  function AcceptedTts(s: State, samples: seq<sample>): seq<sample> {
    Take(samples, Max(720_000 - |s.pcm|, 0))
  }

  function LedgerStep(l: Ledger, op: Op): Ledger {
    match op
    case OpPushPcm(samples) => l.(s := PushPcm(l.s, samples), ttsIn := l.ttsIn + AcceptedTts(l.s, samples))
    case OpPushMusic(samples) => l.(s := PushMusicPcm(l.s, samples), musicIn := l.musicIn + samples)
    case OpSuppress => l.(s := Suppress(l.s))
    case OpResume => l.(s := Resume(l.s))
    case OpTick(encodes) =>
      l.(s := Next(l.s, encodes).0, ttsOut := l.ttsOut + PlayedTts(l.s), musicOut := l.musicOut + PlayedMusic(l.s))
  }

  function RunOps(l: Ledger, ops: seq<Op>): Ledger
    decreases |ops|
  {
    if ops == [] then l else RunOps(LedgerStep(l, ops[0]), ops[1..])
  }

  predicate Balanced(l: Ledger) {
    && l.ttsIn == l.ttsOut + l.s.pcm
    && l.musicIn == l.musicOut + l.s.music
    && |l.s.pcm| <= 720_000
  }

  lemma {:induction false} StepBalanced(l: Ledger, op: Op)
    requires Balanced(l)
    ensures Balanced(LedgerStep(l, op))
  {
    match op
    case OpPushPcm(samples) =>
      assert Take(l.s.pcm + samples, MAX_PCM_BUFFER_SAMPLES) == l.s.pcm + AcceptedTts(l.s, samples);
      Assoc(l.ttsOut, l.s.pcm, AcceptedTts(l.s, samples));
    case OpPushMusic(samples) =>
      Assoc(l.musicOut, l.s.music, samples);
    case OpSuppress =>
    case OpResume =>
    case OpTick(encodes) =>
      var s' := Next(l.s, encodes).0;
      TickConserves(l.s, encodes);
      Assoc(l.ttsOut, PlayedTts(l.s), s'.pcm);
      Assoc(l.musicOut, PlayedMusic(l.s), s'.music);
  }

  /** In every run, what was accepted is what was played followed by what is buffered, in order, for
      speech and for music, across suppression, encoder failures and pushes beyond the cap. */
  lemma {:induction false} PlayoutConserves(l: Ledger, ops: seq<Op>)
    requires Balanced(l)
    ensures Balanced(RunOps(l, ops))
    decreases |ops|
  {
    if ops != [] {
      StepBalanced(l, ops[0]);
      PlayoutConserves(LedgerStep(l, ops[0]), ops[1..]);
    }
  }

  // ---------------------------------------------------------------- draining speech

  /** The state after `k` ticks with a working encoder and nothing pushed. */
  function Ticks(s: State, k: nat): State
    decreases k
  {
    if k == 0 then s else Ticks(Next(s, true).0, k - 1)
  }

  /** What the tick after those sends. */
  function FrameAt(s: State, k: nat): Frame {
    Next(Ticks(s, k), true).1
  }

  lemma {:induction false} TicksFirst(s: State, k: nat)
    requires k > 0
    ensures Ticks(s, k) == Ticks(Next(s, true).0, k - 1)
  {
  }

  lemma {:induction false} TicksAdd(s: State, a: nat, b: nat)
    ensures Ticks(s, a + b) == Ticks(Ticks(s, a), b)
    decreases a
  {
    if a > 0 {
      TicksFirst(s, a);
      TicksFirst(s, a + b);
      TicksAdd(Next(s, true).0, a - 1, b);
    }
  }

  /** How many more ticks the gate holds a waiting utterance. */
  function GateTicks(s: State): nat {
    if s.prebufferSatisfied || |s.pcm| >= 9_600 then 0
    else if |s.pcm| > s.prebufferLastLen then 3
    else Max(2 - s.prebufferStall, 0)
  }

  /** How long an underfilled last frame takes: held once, then flushed. */
  function TailTicks(s: State): nat {
    if |s.pcm| % 960 == 0 then 0
    else if |s.pcm| < 960 && GateTicks(s) == 0 && s.partialStall > 0 then 1
    else 2
  }

  /** The exact number of ticks until the speech buffer is empty. */
  function DrainTicks(s: State): nat {
    GateTicks(s) + |s.pcm| / 960 + TailTicks(s)
  }

  /** A whole frame of speech, once the gate is open. */
  lemma {:induction false} DrainWholeFrame(s: State)
    requires |s.pcm| >= AUDIO_FRAME_SAMPLES && !HasMusic(s) && GateTicks(s) == 0
    ensures var (s', frame) := Next(s, true);
            && !HasMusic(s') && s'.music == s.music && s'.pcm == s.pcm[AUDIO_FRAME_SAMPLES..]
            && s'.prebufferSatisfied && s'.partialStall == 0
            && frame.Encoded? && s'.speaking && s'.trailingSilence == 0
  {
  }

  lemma {:induction false} DrainStep(s: State)
    requires s.pcm != [] && !HasMusic(s)
    ensures var (s', frame) := Next(s, true);
            && !HasMusic(s') && s'.music == s.music
            && DrainTicks(s) == 1 + (if s'.pcm == [] then 0 else DrainTicks(s'))
            && (frame.Encoded? || frame == Nothing)
            && (s'.pcm == [] ==> s'.speaking && s'.trailingSilence == 0 && s'.prebufferSatisfied)
  {
    if |s.pcm| >= AUDIO_FRAME_SAMPLES && GateTicks(s) == 0 {
      DrainWholeFrame(s);
      FrameArithmetic(|s.pcm|);
    }
  }

  lemma {:induction false} FrameArithmetic(n: nat)
    requires n >= AUDIO_FRAME_SAMPLES
    ensures (n - AUDIO_FRAME_SAMPLES) / AUDIO_FRAME_SAMPLES == n / AUDIO_FRAME_SAMPLES - 1
    ensures (n - AUDIO_FRAME_SAMPLES) % AUDIO_FRAME_SAMPLES == n % AUDIO_FRAME_SAMPLES
  {
  }

  /** Speech that takes `left` more ticks, or is all played. */
  predicate DrainsIn(s: State, music: seq<sample>, left: nat) {
    && !HasMusic(s) && s.music == music
    && (if left > 0 then s.pcm != [] && DrainTicks(s) == left
        else s.pcm == [] && s.speaking && s.trailingSilence == 0 && s.prebufferSatisfied)
  }

  lemma {:induction false} LeftStep(s: State, music: seq<sample>, left: nat)
    requires left > 0 && DrainsIn(s, music, left)
    ensures var (s', frame) := Next(s, true); DrainsIn(s', music, left - 1) && (frame.Encoded? || frame == Nothing)
  {
    DrainStep(s);
  }

  lemma {:induction false} LeftRun(s: State, music: seq<sample>, left: nat, j: nat)
    requires j <= left && DrainsIn(s, music, left)
    ensures DrainsIn(Ticks(s, j), music, left - j)
    decreases j
  {
    if j > 0 {
      LeftStep(s, music, left);
      TicksFirst(s, j);
      LeftRun(Next(s, true).0, music, left - 1, j - 1);
    }
  }

  lemma {:induction false} DrainRun(s: State, j: nat)
    requires s.pcm != [] && !HasMusic(s) && j <= DrainTicks(s)
    ensures var s' := Ticks(s, j);
            && !HasMusic(s') && s'.music == s.music
            && (j < DrainTicks(s) ==> s'.pcm != [] && (FrameAt(s, j).Encoded? || FrameAt(s, j) == Nothing))
            && (j == DrainTicks(s) ==> s'.pcm == [] && s'.speaking && s'.trailingSilence == 0 && s'.prebufferSatisfied)
  {
    DrainStep(s);
    LeftRun(s, s.music, DrainTicks(s), j);
    if j < DrainTicks(s) { LeftStep(Ticks(s, j), s.music, DrainTicks(s) - j); }
  }

  lemma {:induction false} DrainTicksBound(s: State)
    ensures DrainTicks(s) <= |s.pcm| / 960 + 5
  {
  }

  /** The `j`-th state of a run that has nothing to play: silence is still due, or all is said. */
  predicate Quiet(s: State, j: nat) {
    && s.pcm == [] && !HasMusic(s)
    && (j <= 5 ==> s.trailingSilence == j && s.speaking)
    && (j > 5 ==> TtsJustDrained(s) && s.prebufferStall == 0 && s.prebufferLastLen == 0)
  }

  lemma {:induction false} QuietStep(s: State, j: nat)
    requires Quiet(s, j)
    ensures var (s', frame) := Next(s, true);
            Quiet(s', j + 1) && frame == if j < 5 then Silence else Nothing
  {
  }

  lemma {:induction false} QuietRun(s: State, j: nat)
    requires Quiet(s, 0)
    ensures Quiet(Ticks(s, j), j)
    decreases j
  {
    if j > 0 {
      QuietRun(s, j - 1);
      QuietStep(Ticks(s, j - 1), j - 1);
      TicksAdd(s, j - 1, 1);
      assert Ticks(Ticks(s, j - 1), 1) == Next(Ticks(s, j - 1), true).0;
    }
  }

  /** Five silence frames, then idle with the gate armed again. */
  lemma {:induction false} SilenceRun(s: State, j: nat)
    requires s.pcm == [] && !HasMusic(s) && s.trailingSilence == 0 && s.speaking
    ensures j <= 5 ==> Ticks(s, j).pcm == [] && !HasMusic(Ticks(s, j)) && Ticks(s, j).trailingSilence == j && Ticks(s, j).speaking
    ensures j < 5 ==> FrameAt(s, j) == Silence
    ensures j >= 5 ==> FrameAt(s, j) == Nothing
    ensures j >= 6 ==> TtsJustDrained(Ticks(s, j)) && Ticks(s, j).prebufferStall == 0 && Ticks(s, j).prebufferLastLen == 0
                       && Ticks(s, j).pcm == [] && !HasMusic(Ticks(s, j))
  {
    QuietRun(s, j);
    QuietStep(Ticks(s, j), j);
  }

  /** From any state with speech buffered, no playable music and nothing more pushed: the buffer is
      non-empty for `DrainTicks` ticks, which is at most n/960 + 5, then empty; exactly five silence frames
      follow, and from then on nothing, with the prebuffer gate armed for the next utterance. */
  lemma {:induction false} SpeechDrains(s: State, j: nat)
    requires s.pcm != [] && !HasMusic(s)
    ensures DrainTicks(s) <= |s.pcm| / 960 + 5
    ensures j < DrainTicks(s) <==> Ticks(s, j).pcm != []
    ensures j < DrainTicks(s) ==> FrameAt(s, j) != Silence
    ensures DrainTicks(s) <= j < DrainTicks(s) + 5 <==> FrameAt(s, j) == Silence
    ensures j >= DrainTicks(s) + 5 ==> FrameAt(s, j) == Nothing
    ensures j >= DrainTicks(s) + 6 ==>
              TtsJustDrained(Ticks(s, j)) && Ticks(s, j).prebufferStall == 0 && Ticks(s, j).prebufferLastLen == 0
  {
    DrainTicksBound(s);
    if j < DrainTicks(s) {
      DrainRun(s, j);
    } else {
      var d := DrainTicks(s);
      DrainRun(s, d);
      TicksAdd(s, d, j - d);
      SilenceRun(Ticks(s, d), j - d);
    }
  }

  /** The bound is met: a one-sample utterance pushed into an idle engine takes all five ticks. */
  lemma {:induction false} DrainBoundIsTight()
    ensures DrainTicks(PushPcm(INITIAL, [7])) == 1 / AUDIO_FRAME_SAMPLES + 5
  {
  }

  // ---------------------------------------------------------------- silence that is owed

  /** With nothing to play, a tick sends silence until five such frames have gone out, and then nothing. */
  lemma {:induction false} SilenceIsOwed(s: State, j: nat)
    requires s.pcm == [] && !HasMusic(s)
    ensures FrameAt(s, j) == if s.trailingSilence + j < 5 then Silence else Nothing
    decreases j
  {
    if j > 0 {
      SilenceIsOwed(Next(s, true).0, j - 1);
    }
  }

  /** Speech or music that is pushed, and music that is resumed, owes all five of them, even if it is taken
      back or too short to be played. */
  lemma {:induction false} PushOwesSilence(s: State, samples: seq<sample>, j: nat)
    ensures !HasMusic(s) ==> FrameAt(ClearTts(PushPcm(s, samples)), j) == if j < 5 then Silence else Nothing
    ensures s.pcm == [] && !HasMusic(PushMusicPcm(s, samples)) ==>
              FrameAt(PushMusicPcm(s, samples), j) == if j < 5 then Silence else Nothing
    ensures s.pcm == [] && !HasMusic(Resume(s)) ==> FrameAt(Resume(s), j) == if j < 5 then Silence else Nothing
  {
    if !HasMusic(s) { SilenceIsOwed(ClearTts(PushPcm(s, samples)), j); }
    if s.pcm == [] && !HasMusic(PushMusicPcm(s, samples)) { SilenceIsOwed(PushMusicPcm(s, samples), j); }
    if s.pcm == [] && !HasMusic(Resume(s)) { SilenceIsOwed(Resume(s), j); }
  }

  /** Cleared music owes none: without speech, ticks send nothing. */
  lemma {:induction false} ClearedMusicOwesNone(s: State, j: nat)
    requires s.pcm == []
    ensures FrameAt(ClearMusic(s), j) == Nothing
  {
    SilenceIsOwed(ClearMusic(s), j);
  }

  /** Cleared speech leaves the gate armed: the next short utterance waits as if it were the first. */
  lemma {:induction false} ClearedSpeechArmsGate(s: State, samples: seq<sample>)
    requires 0 < |samples| < 9_600 && !HasMusic(s)
    ensures DrainTicks(PushPcm(ClearTts(s), samples)) == DrainTicks(PushPcm(INITIAL, samples))
    ensures DrainTicks(PushPcm(Clear(s), samples)) == DrainTicks(PushPcm(INITIAL, samples))
  {
    assert [] + samples == samples;
  }

  /** Speech that arrives while an underfilled frame is held back lets it be held back anew. */
  lemma {:induction false} PushHoldsTailAnew(s: State, samples: seq<sample>)
    ensures var p := PushPcm(s, samples); TailTicks(p) == if |p.pcm| % 960 == 0 then 0 else 2
  {
  }
}
