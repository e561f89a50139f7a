/** Does a requested stop complete? MusicStop on a playing track only starts a fade (`handle_playback_command`
    and `tick_pending_stop` of `src/playback_supervisor.rs`, `GainEnvelope` of `src/audio_pipeline.rs`).

    The answer is a small tracker that knows the fade in force in closed form and how many music frames are
    left. It is proved to say when the stop is announced, whatever ticks, chunks, speech and gain changes come. */
module MusicStop {
  import opened Bytes
  import opened AudioSend
  import opened GainEnvelope
  import opened Playback
  import opened MusicDrain

  // ---------------------------------------------------------------- a fade in closed form

  /** A fade over `ms` milliseconds after so many music frames. */
  datatype Fade = Fade(from: real, target: real, ms: u32, frames: nat)

  /** A fade without length has arrived where it starts. */
  predicate ValidFade(f: Fade) {
    f.ms == 0 ==> f.from == f.target
  }

  function Level(f: Fade): real {
    LevelAt(f.from, f.target, f.ms, AUDIO_FRAME_SAMPLES * f.frames)
  }

  /** The envelope has come to rest at no gain. */
  predicate Silent(f: Fade) {
    f.target < 0.001 && -0.0001 < Level(f) - f.target < 0.0001
  }

  /** The same fade as the per-sample loop has it. */
  function Envelope(f: Fade): Gain {
    GainAfter(NewGain(f.from, f.target, f.ms), AUDIO_FRAME_SAMPLES * f.frames)
  }

  /** The closed form says when the loop's envelope counts as faded out. */
  lemma {:induction false} SilentIsComplete(f: Fade)
    requires ValidFade(f)
    ensures Envelope(f).target == f.target && Envelope(f).current == Level(f)
    ensures Silent(f) <==> GainComplete(Envelope(f)) && Envelope(f).target < 0.001
  {
    FadeLine(f.from, f.target, f.ms, AUDIO_FRAME_SAMPLES * f.frames);
  }

  lemma {:induction false} EnvelopeNext(f: Fade)
    ensures GainAfter(Envelope(f), AUDIO_FRAME_SAMPLES) == Envelope(f.(frames := f.frames + 1))
  {
    GainAfterAdd(NewGain(f.from, f.target, f.ms), AUDIO_FRAME_SAMPLES * f.frames, AUDIO_FRAME_SAMPLES);
  }

  // ---------------------------------------------------------------- the tracker

  datatype Tracker = Tracker(fade: Fade, left: nat, announced: bool)

  function Clamped(target: real): real {
    if target < 0.0 then 0.0 else if target > 1.0 then 1.0 else target
  }

  /** A gain command replaces the fade: it goes on from the present level, or jumps. */
  function Refade(f: Fade, target: real, ms: u32): Fade {
    Fade(if ms == 0 then target else Level(f), target, ms, 0)
  }

  /** A tick announces the stop once the fade is silent; until then each tick with music left plays a frame
      of it, and only that moves the fade. */
  function Track(t: Tracker, i: Input): Tracker {
    if t.announced then t
    else
      match i
      case OnTick(_, _) =>
        if Silent(t.fade) then t.(announced := true)
        else if t.left > 0 then Tracker(t.fade.(frames := t.fade.frames + 1), t.left - 1, false)
        else t
      case OnEvent(PipelineChunk(_)) => t.(left := t.left + 1)
      case OnCommand(MusicSetGain(target, ms)) => t.(fade := Refade(t.fade, Clamped(target), ms))
      case _ => t
  }

  function TrackAll(t: Tracker, inputs: seq<Input>): Tracker
    decreases |inputs|
  {
    if inputs == [] then t else TrackAll(Track(t, inputs[0]), inputs[1..])
  }

  /** Ticks, chunks, speech and gain changes. */
  predicate WhileStopping(i: Input) {
    match i
    case OnCommand(c) => c.Audio? || c.StopTtsPlayback? || c.MusicSetGain?
    case OnEvent(e) => e.PipelineChunk?
    case OnTick(_, _) => true
  }

  ghost predicate AllWhileStopping(inputs: seq<Input>) {
    forall k | 0 <= k < |inputs| :: WhileStopping(inputs[k]) && WellFormed(inputs[k])
  }

  // ---------------------------------------------------------------- the tracker follows the application

  /** A stop has been asked for and not yet announced. */
  ghost predicate Stopping(a: App, fade: Fade) {
    && Inv(a) && a.music.active && a.music.pendingStop && !a.music.finishing
    && a.audio.Some? && a.audio.value.gain == Envelope(fade) && ValidFade(fade)
  }

  predicate Stopped(a: App) {
    !a.music.active && !a.music.finishing && !a.music.pendingStop && a.music.pendingUrl.None?
  }

  /** `log` is what had been said when the stop was asked for. */
  ghost predicate Follows(a: App, t: Tracker, log: seq<Message>) {
    if t.announced then Stopped(a) && a.log == log + [PlayerIdle, MusicIdle]
    else Stopping(a, t.fade) && |Left(a)| == AUDIO_FRAME_SAMPLES * t.left && a.log == log
  }

  lemma {:induction false} StoppingPull(a: App)
    requires Inv(a) && a.music.active && a.audio.Some?
    ensures var b := TickPull(a);
            && b == a.(audio := b.audio, queue := b.queue) && b.audio.Some? && Inv(b)
            && Left(b) == Left(a) && b.audio.value.gain == a.audio.value.gain
            && (if Left(a) == [] then b.audio.value.music == [] && b.queue == [] else HasMusic(b.audio.value))
  {
    PullKeepsInv(a);
    PullKeeps(a.audio.value, a.queue);
    PullKeepsGain(a.audio.value, a.queue);
    FlattenFrames(a.queue);
    if a.queue == [] { assert Left(a) == a.audio.value.music; }
  }

  /** The frame of a tick on which the stop does not complete. */
  lemma {:induction false} StoppingFrame(b: App, fade: Fade, encodes: bool)
    requires Stopping(b, fade)
    requires if Left(b) == [] then b.audio.value.music == [] && b.queue == [] else HasMusic(b.audio.value)
    ensures var a' := OnAudio(b, Next(b.audio.value, encodes).0);
            && (Left(b) == [] ==> Stopping(a', fade) && Left(a') == [])
            && (Left(b) != [] ==>
                  && Stopping(a', fade.(frames := fade.frames + 1))
                  && |Left(b)| >= AUDIO_FRAME_SAMPLES && Left(a') == Left(b)[AUDIO_FRAME_SAMPLES..])
  {
    FrameKeepsInv(b, encodes);
    TickGain(b.audio.value, encodes);
    if Left(b) == [] {
      TickConserves(b.audio.value, encodes);
    } else {
      FramePlays(b.audio.value, b.queue, encodes);
      EnvelopeNext(fade);
    }
  }

  lemma {:induction false} StoppedTick(b: App, encodes: bool)
    requires b.music.pendingStop && b.audio.Some? && FadeOutComplete(b.audio.value)
    ensures var a := TickPendingStop(b);
            && a.audio.Some? && a.log == b.log + [PlayerIdle, MusicIdle]
            && Stopped(OnAudio(a, Next(a.audio.value, encodes).0))
  {
  }

  lemma {:induction false} TickFollows(a: App, t: Tracker, log: seq<Message>, now: nat, encodes: bool)
    requires Follows(a, t, log) && !t.announced
    ensures Follows(Tick(a, now, encodes).0, Track(t, OnTick(now, encodes)), log)
  {
    StoppingPull(a);
    SilentIsComplete(t.fade);
    var b := TickPull(a);
    assert TickPendingStart(a, now) == a && TickFinish(b) == b;
    if Silent(t.fade) {
      StoppedTick(b, encodes);
    } else {
      assert BeforeFrame(a, now) == b;
      StoppingFrame(b, t.fade, encodes);
    }
  }

  lemma {:induction false} GainFollows(a: App, t: Tracker, log: seq<Message>, target: real, ms: u32)
    requires Follows(a, t, log) && !t.announced
    ensures Follows(Handle(a, MusicSetGain(target, ms)), Track(t, OnCommand(MusicSetGain(target, ms))), log)
  {
    HandleKeepsInv(a, MusicSetGain(target, ms));
    SilentIsComplete(t.fade);
  }

  lemma {:induction false} ChunkFollows(a: App, t: Tracker, log: seq<Message>, samples: seq<sample>)
    requires Follows(a, t, log) && !t.announced && |samples| == AUDIO_FRAME_SAMPLES
    ensures Follows(HandleEvent(a, PipelineChunk(samples)), Track(t, OnEvent(PipelineChunk(samples))), log)
  {
    EventKeepsInv(a, PipelineChunk(samples));
    FlattenSnoc(a.queue, samples);
  }

  lemma {:induction false} SpeechFollows(a: App, t: Tracker, log: seq<Message>, c: Command)
    requires Follows(a, t, log) && !t.announced && (c.Audio? || c.StopTtsPlayback?)
    ensures Follows(Handle(a, c), Track(t, OnCommand(c)), log)
  {
    HandleKeepsInv(a, c);
  }

  /** Once announced, nothing is said again. */
  lemma {:induction false} StoppedStep(a: App, i: Input)
    requires Stopped(a) && WhileStopping(i)
    ensures Stopped(Step(a, i)) && Step(a, i).log == a.log
  {
  }

  lemma {:induction false} StepFollows(a: App, t: Tracker, log: seq<Message>, i: Input)
    requires Follows(a, t, log) && WhileStopping(i) && WellFormed(i)
    ensures Follows(Step(a, i), Track(t, i), log)
  {
    if t.announced {
      StoppedStep(a, i);
    } else {
      match i
      case OnCommand(MusicSetGain(target, ms)) => GainFollows(a, t, log, target, ms);
      case OnCommand(c) => SpeechFollows(a, t, log, c);
      case OnEvent(PipelineChunk(samples)) => ChunkFollows(a, t, log, samples);
      case OnTick(now, encodes) => TickFollows(a, t, log, now, encodes);
    }
  }

  lemma {:induction false} RunFollows(a: App, t: Tracker, log: seq<Message>, inputs: seq<Input>)
    requires Follows(a, t, log) && AllWhileStopping(inputs)
    ensures Follows(RunInputs(a, inputs), TrackAll(t, inputs), log)
    decreases |inputs|
  {
    if inputs != [] {
      StepFollows(a, t, log, inputs[0]);
      RunFollows(Step(a, inputs[0]), Track(t, inputs[0]), log, inputs[1..]);
    }
  }

  // ---------------------------------------------------------------- when the stop is announced

  /** MusicStop finds a playing track. */
  ghost predicate Stoppable(a: App) {
    Inv(a) && a.music.hasPlayer && a.music.active && !a.music.finishing && a.audio.Some?
  }

  /** The tracker as MusicStop sets it off: a fade of 300 ms from the present gain. */
  function StartTracking(a: App): Tracker
    requires a.audio.Some?
  {
    Tracker(Fade(a.audio.value.gain.current, 0.0, 300, 0), FramesLeft(a), false)
  }

  lemma {:induction false} StopStarts(a: App)
    requires Stoppable(a)
    ensures Follows(Handle(a, MusicStop), StartTracking(a), a.log)
  {
    HandleKeepsInv(a, MusicStop);
    LeftInFrames(a);
    assert Left(Handle(a, MusicStop)) == Left(a);
  }

  /** After MusicStop on a playing track, whatever ticks, chunks, speech and gain changes follow, the stop is
      announced, once, on the first tick before which the fade in force, with the music frames played since
      it was set, has come to rest at no gain. */
  lemma {:induction false} StopCompletesIff(a: App, inputs: seq<Input>)
    requires Stoppable(a) && AllWhileStopping(inputs)
    ensures RunInputs(Handle(a, MusicStop), inputs).log ==
            a.log + if TrackAll(StartTracking(a), inputs).announced then [PlayerIdle, MusicIdle] else []
  {
    StopStarts(a);
    RunFollows(Handle(a, MusicStop), StartTracking(a), a.log, inputs);
  }

  /** If the pipeline ends before the stop is announced, the request is dropped: what is left of the music
      plays to its end, and idle is announced on the tick after, as for any track. */
  lemma {:induction false} PipelineEndReplacesStop(a: App, inputs: seq<Input>, ts: seq<TickInput>)
    requires Stoppable(a) && AllWhileStopping(inputs)
    requires !TrackAll(StartTracking(a), inputs).announced
    ensures var b := RunInputs(Handle(a, MusicStop), inputs);
            var c := HandleEvent(b, PipelineIdle);
            && !c.music.pendingStop
            && Plays(PlayedBy(c, ts), Left(b))
            && RunTicks(c, ts).log ==
               a.log + if |ts| > TrackAll(StartTracking(a), inputs).left then [PlayerIdle, MusicIdle] else []
  {
    StopStarts(a);
    RunFollows(Handle(a, MusicStop), StartTracking(a), a.log, inputs);
    MusicDrains(RunInputs(Handle(a, MusicStop), inputs), ts);
  }

  /** If the connection goes while the stop is pending, it completes on the next tick, with all that was queued. */
  lemma {:induction false} StopCompletesWithoutConnection(a: App, now: nat, encodes: bool)
    requires Stoppable(a)
    ensures var b := Tick(HandleEvent(Handle(a, MusicStop), ConnectionReplaced), now, encodes).0;
            b.log == a.log + [PlayerIdle, MusicIdle] && b.queue == [] && b.music == NO_MUSIC
  {
  }

  // ---------------------------------------------------------------- stops that never complete

  predicate NoGainChange(i: Input) {
    !(i.OnCommand? && i.c.MusicSetGain?)
  }

  lemma {:induction false} TargetStays(t: Tracker, inputs: seq<Input>)
    requires forall k | 0 <= k < |inputs| :: NoGainChange(inputs[k])
    requires t.fade.target >= 0.001 && !t.announced
    ensures !TrackAll(t, inputs).announced
    decreases |inputs|
  {
    if inputs != [] {
      TargetStays(Track(t, inputs[0]), inputs[1..]);
    }
  }

  /** A gain command after MusicStop undoes the fade: however much music is left and however long the run,
      the stop is never announced. */
  lemma {:induction false} GainChangeUndoesStop(a: App, target: real, ms: u32, inputs: seq<Input>)
    requires Stoppable(a) && AllWhileStopping(inputs) && target >= 0.001
    requires forall k | 0 <= k < |inputs| :: NoGainChange(inputs[k])
    ensures RunInputs(Handle(Handle(a, MusicStop), MusicSetGain(target, ms)), inputs).log == a.log
  {
    var t := StartTracking(a);
    var t1 := Track(t, OnCommand(MusicSetGain(target, ms)));
    StopStarts(a);
    GainFollows(Handle(a, MusicStop), t, a.log, target, ms);
    TargetStays(t1, inputs);
    RunFollows(Handle(Handle(a, MusicStop), MusicSetGain(target, ms)), t1, a.log, inputs);
  }
}
