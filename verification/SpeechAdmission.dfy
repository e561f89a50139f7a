/** Which speech is let in (the Audio arm of `handle_playback_command` in
    `src/playback_supervisor.rs`): all of it while no music plays, and over playing music only what comes
    while the music is ducked. */
module SpeechAdmission {
  import opened Bytes
  import opened AudioSend
  import opened Playback
  import MusicStop

  /** What the buffer takes of a push: at most fifteen seconds are held, and the newest samples are dropped. */
  function Fitting(held: nat, samples: seq<sample>): seq<sample> {
    if held + |samples| <= 720_000 then samples
    else if held <= 720_000 then samples[..720_000 - held]
    else []
  }

  /** The gain that the last gain command asked for, or `before`. */
  function Asked(before: real, inputs: seq<Input>): real
    decreases |inputs|
  {
    if inputs == [] then before
    else
      match inputs[|inputs| - 1]
      case OnCommand(MusicSetGain(target, _)) => if target < 0.0 then 0.0 else if target > 1.0 then 1.0 else target
      case _ => Asked(before, inputs[..|inputs| - 1])
  }

  lemma {:induction false} AskedLast(before: real, inputs: seq<Input>, i: Input)
    ensures Asked(before, inputs + [i]) ==
            match i
            case OnCommand(MusicSetGain(target, _)) => if target < 0.0 then 0.0 else if target > 1.0 then 1.0 else target
            case _ => Asked(before, inputs)
  {
    assert (inputs + [i])[..|inputs|] == inputs;
  }

  /** Music that plays on: no stop asked for, the pipeline not at its end. */
  ghost predicate PlaysOn(a: App, target: real) {
    Inv(a) && a.music.active && !a.music.finishing && !a.music.pendingStop && a.audio.Some? && a.audio.value.gain.target == target
  }

  lemma {:induction false} TargetStays(g: Gain, samples: nat)
    ensures GainAfter(g, samples).target == g.target
  {
    if samples > 0 { TargetStays(g, samples - 1); }
  }

  lemma {:induction false} PlaysOnTick(a: App, target: real, now: nat, encodes: bool)
    requires PlaysOn(a, target)
    ensures PlaysOn(Tick(a, now, encodes).0, target)
  {
    TickKeepsInv(a, now, encodes);
    var b := TickPull(a);
    assert BeforeFrame(a, now) == b;
    PullKeepsGain(a.audio.value, a.queue);
    TickGain(b.audio.value, encodes);
    TargetStays(b.audio.value.gain, AUDIO_FRAME_SAMPLES);
  }

  lemma {:induction false} PlaysOnStep(a: App, target: real, i: Input)
    requires PlaysOn(a, target) && MusicStop.WhileStopping(i) && WellFormed(i)
    ensures PlaysOn(Step(a, i), match i case OnCommand(MusicSetGain(t, _)) => if t < 0.0 then 0.0 else if t > 1.0 then 1.0 else t case _ => target)
  {
    match i
    case OnCommand(c) => HandleKeepsInv(a, c);
    case OnEvent(e) => EventKeepsInv(a, e);
    case OnTick(now, encodes) => PlaysOnTick(a, target, now, encodes);
  }

  lemma {:induction false} PlaysOnRun(a: App, inputs: seq<Input>)
    requires a.audio.Some? && PlaysOn(a, a.audio.value.gain.target) && MusicStop.AllWhileStopping(inputs)
    ensures PlaysOn(RunInputs(a, inputs), Asked(a.audio.value.gain.target, inputs))
    decreases |inputs|
  {
    if inputs != [] {
      var n := |inputs| - 1;
      assert inputs == inputs[..n] + [inputs[n]];
      PlaysOnRun(a, inputs[..n]);
      PlaysOnStep(RunInputs(a, inputs[..n]), Asked(a.audio.value.gain.target, inputs[..n]), inputs[n]);
      RunInputsSnoc(a, inputs[..n], inputs[n]);
      AskedLast(a.audio.value.gain.target, inputs[..n], inputs[n]);
    }
  }

  /** While music plays, whatever ticks, chunks, speech and gain commands came before: a push of speech goes
      behind what is buffered if the last gain asked for is below full gain, and is ignored if not. */
  lemma {:induction false} SpeechOverMusicIffDucked(a: App, inputs: seq<Input>, samples: seq<sample>, now: nat)
    requires a.audio.Some? && PlaysOn(a, a.audio.value.gain.target) && MusicStop.AllWhileStopping(inputs)
    ensures var b := RunInputs(a, inputs);
            var c := Handle(b, Audio(samples, now));
            && b.audio.Some? && c.audio.Some?
            && c.audio.value.pcm == b.audio.value.pcm +
                 (if Asked(a.audio.value.gain.target, inputs) < 1.0 then Fitting(|b.audio.value.pcm|, samples) else [])
            && c.audio.value.music == b.audio.value.music && c.queue == b.queue && c.log == b.log
  {
    PlaysOnRun(a, inputs);
    PushFits(RunInputs(a, inputs).audio.value, samples);
  }

  lemma {:induction false} PushFits(s: State, samples: seq<sample>)
    requires |s.pcm| <= 720_000
    ensures PushPcm(s, samples).pcm == s.pcm + Fitting(|s.pcm|, samples)
    ensures s.pcm + Fitting(|s.pcm|, []) == s.pcm
  {
  }

  /** While no music plays, every push is let in as far as it fits. */
  lemma {:induction false} SpeechAloneIsLetIn(a: App, samples: seq<sample>, now: nat)
    requires Inv(a) && !a.music.active && a.audio.Some?
    ensures var c := Handle(a, Audio(samples, now));
            && c.audio.Some? && c.audio.value.pcm == a.audio.value.pcm + Fitting(|a.audio.value.pcm|, samples)
            && c.audio.value.music == a.audio.value.music && c.queue == a.queue && c.log == a.log
  {
    PushFits(a.audio.value, samples);
  }
}
