/** A stop followed by nothing but ticks: how much music it needs, in numbers. */
module StopOnTicks {
  import opened Bytes
  import opened AudioSend
  import opened GainEnvelope
  import opened Playback
  import opened MusicDrain
  import opened MusicStop

  /** The 300 ms fade from `c` counts as silent after so many music frames. */
  predicate Faded(c: real, frames: nat) {
    frames >= 15 || c * (15.0 - frames as real) < 0.0015
  }

  lemma {:induction false} FadedIsSilent(c: real, frames: nat)
    requires 0.0 <= c
    ensures Faded(c, frames) <==> Silent(Fade(c, 0.0, 300, frames))
  {
    if frames < 15 {
      var n, d := frames as real, -c / 14400.0;
      assert c == -(14400.0 * d);
      assert (AUDIO_FRAME_SAMPLES * frames) as real == 960.0 * n;
      assert Level(Fade(c, 0.0, 300, frames)) == c + (960.0 * n) * d;
      assert (960.0 * n) * d == 960.0 * (n * d);
      assert c * (15.0 - n) == 15.0 * c - c * n;
      assert c * n == -14400.0 * (n * d);
      assert c * (15.0 - n) == 15.0 * Level(Fade(c, 0.0, 300, frames));
      FadeNotNegative(c, n);
    }
  }

  lemma FadeNotNegative(c: real, n: real)
    requires 0.0 <= c && n <= 15.0
    ensures c * (15.0 - n) >= 0.0
  {
  }

  lemma {:induction false} FadedGrows(c: real, m: nat, n: nat)
    requires 0.0 <= c && m <= n && Faded(c, m)
    ensures Faded(c, n)
  {
    if n < 15 {
      var x, y := 15.0 - m as real, 15.0 - n as real;
      assert y <= x;
      assert c * (x - y) >= 0.0;
      assert c * x == c * y + c * (x - y);
    }
  }

  lemma {:induction false} TicksTrack(t: Tracker, c: real, inputs: seq<Input>)
    requires forall k | 0 <= k < |inputs| :: inputs[k].OnTick?
    requires 0.0 <= c && t.fade == Fade(c, 0.0, 300, t.fade.frames) && !t.announced
    ensures TrackAll(t, inputs).announced <==> inputs != [] && Faded(c, t.fade.frames + Min(|inputs| - 1, t.left))
    decreases |inputs|
  {
    if inputs != [] {
      FadedIsSilent(c, t.fade.frames);
      if Faded(c, t.fade.frames) {
        AnnouncedStays(Track(t, inputs[0]), inputs[1..]);
        FadedGrows(c, t.fade.frames, t.fade.frames + Min(|inputs| - 1, t.left));
      } else {
        TicksTrack(Track(t, inputs[0]), c, inputs[1..]);
      }
    }
  }

  lemma {:induction false} AnnouncedStays(t: Tracker, inputs: seq<Input>)
    requires t.announced
    ensures TrackAll(t, inputs) == t
    decreases |inputs|
  {
    if inputs != [] {
      AnnouncedStays(t, inputs[1..]);
    }
  }

  /** If nothing but ticks follows, the music at hand decides: from gain `c`, the stop is announced exactly
      when enough of it is left to carry the fade, which fifteen frames always do. */
  lemma {:induction false} StopOnTicksIff(a: App, inputs: seq<Input>)
    requires Stoppable(a) && forall k | 0 <= k < |inputs| :: inputs[k].OnTick?
    ensures RunInputs(Handle(a, MusicStop), inputs).log ==
            a.log + if inputs != [] && Faded(a.audio.value.gain.current, Min(|inputs| - 1, FramesLeft(a)))
                    then [PlayerIdle, MusicIdle] else []
  {
    StopCompletesIff(a, inputs);
    TicksTrack(StartTracking(a), a.audio.value.gain.current, inputs);
  }

  /** A track that has started, is at full gain and has nothing left to play. */
  const PLAYED_OUT: seq<Input> :=
    [OnEvent(Connected), OnCommand(MusicPlay("u", false, 0)), OnTick(15_001, true), OnCommand(MusicSetGain(1.0, 0))]

  /** A failing input: a stalled pipeline, and a stop that no number of ticks announces. */
  lemma {:induction false} StopNeverCompletes(inputs: seq<Input>)
    requires forall k | 0 <= k < |inputs| :: inputs[k].OnTick?
    ensures var a := RunInputs(START, PLAYED_OUT);
            Stoppable(a) && RunInputs(Handle(a, MusicStop), inputs).log == a.log
  {
    PlayedOut();
    StopOnTicksIff(RunInputs(START, PLAYED_OUT), inputs);
  }

  lemma {:induction false} PlayedOut()
    ensures var a := RunInputs(START, PLAYED_OUT);
            Stoppable(a) && a.audio.value.gain.current == 1.0 && FramesLeft(a) == 0
  {
    var a1 := Step(START, PLAYED_OUT[0]);
    var a2 := Step(a1, PLAYED_OUT[1]);
    var a3 := Step(a2, PLAYED_OUT[2]);
    StartsEmpty(a2);
    var rest := PLAYED_OUT[1..][1..][1..];
    assert rest == [PLAYED_OUT[3]];
    RunThree(START, PLAYED_OUT);
    RunInputsOne(a3, PLAYED_OUT[3]);
    ReachableInv(START, PLAYED_OUT);
  }

  lemma {:induction false} RunThree(a: App, inputs: seq<Input>)
    requires |inputs| >= 3
    ensures RunInputs(a, inputs) == RunInputs(Step(Step(Step(a, inputs[0]), inputs[1]), inputs[2]), inputs[1..][1..][1..])
  {
    var a1 := Step(a, inputs[0]);
    var a2 := Step(a1, inputs[1]);
    assert RunInputs(a, inputs) == RunInputs(a1, inputs[1..]) == RunInputs(a2, inputs[1..][1..]);
  }

  lemma {:induction false} RunInputsOne(a: App, i: Input)
    ensures RunInputs(a, [i]) == Step(a, i)
  {
    assert [i][1..] == [];
  }
}
