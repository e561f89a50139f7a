/** Pausing and resuming music (`handle_playback_command` of `src/playback_supervisor.rs`): a pause loses
    nothing, and what a resume goes on with. */
module PauseResume {
  import opened Bytes
  import opened AudioSend
  import opened Playback
  import opened MusicDrain

  // ---------------------------------------------------------------- while the music is paused

  /** Ticks, chunks and speech. */
  predicate WhilePaused(i: Input) {
    match i
    case OnCommand(c) => c.Audio? || c.StopTtsPlayback?
    case OnEvent(e) => e.PipelineChunk?
    case OnTick(_, _) => true
  }

  ghost predicate AllWhilePaused(inputs: seq<Input>) {
    forall k | 0 <= k < |inputs| :: WhilePaused(inputs[k]) && WellFormed(inputs[k])
  }

  /** The samples of the chunks that come in. */
  function ChunksOf(inputs: seq<Input>): seq<sample> {
    if inputs == [] then []
    else
      (match inputs[0]
       case OnEvent(PipelineChunk(samples)) => samples
       case _ => []) + ChunksOf(inputs[1..])
  }

  /** No tick of the run plays music. */
  ghost predicate PlaysNothing(a: App, inputs: seq<Input>)
    decreases |inputs|
  {
    inputs != [] ==>
      && (inputs[0].OnTick? ==> MusicAt(a, inputs[0].now) == [])
      && PlaysNothing(Step(a, inputs[0]), inputs[1..])
  }

  ghost predicate HeldBack(a: App) {
    Inv(a) && a.audio.Some? && a.audio.value.suppressed && !a.music.pendingStop
  }

  lemma {:induction false} HeldTick(a: App, now: nat, encodes: bool)
    requires HeldBack(a)
    ensures var a' := Tick(a, now, encodes).0; HeldBack(a') && Left(a') == Left(a) && MusicAt(a, now) == []
  {
    var b := TickFinish(a);
    assert BeforeFrame(a, now) == b;
    TickKeepsInv(a, now, encodes);
    TickConserves(b.audio.value, encodes);
  }

  lemma {:induction false} HeldStep(a: App, i: Input)
    requires HeldBack(a) && WhilePaused(i) && WellFormed(i)
    ensures HeldBack(Step(a, i)) && Left(Step(a, i)) == Left(a) + ChunksOf([i])
    ensures i.OnTick? ==> MusicAt(a, i.now) == []
  {
    assert [i][1..] == [];
    match i
    case OnCommand(c) => HandleKeepsInv(a, c);
    case OnEvent(PipelineChunk(samples)) =>
      EventKeepsInv(a, PipelineChunk(samples));
      FlattenSnoc(a.queue, samples);
      Assoc(a.audio.value.music, Flatten(a.queue), samples);
      assert samples + [] == samples;
    case OnTick(now, encodes) => HeldTick(a, now, encodes);
  }

  lemma {:induction false} HeldRun(a: App, inputs: seq<Input>)
    requires HeldBack(a) && AllWhilePaused(inputs)
    ensures HeldBack(RunInputs(a, inputs)) && Left(RunInputs(a, inputs)) == Left(a) + ChunksOf(inputs)
    ensures PlaysNothing(a, inputs)
    decreases |inputs|
  {
    if inputs == [] {
      assert Left(a) + [] == Left(a);
    } else {
      HeldStep(a, inputs[0]);
      HeldRun(Step(a, inputs[0]), inputs[1..]);
      ChunksCons(inputs);
      Assoc(Left(a), ChunksOf([inputs[0]]), ChunksOf(inputs[1..]));
    }
  }

  lemma {:induction false} ChunksCons(inputs: seq<Input>)
    requires inputs != []
    ensures ChunksOf(inputs) == ChunksOf([inputs[0]]) + ChunksOf(inputs[1..])
  {
    assert [inputs[0]][1..] == [];
  }

  // ---------------------------------------------------------------- playing on

  /** Music that plays and is not asked to stop. */
  ghost predicate Playing(a: App) {
    Inv(a) && a.music.active && !a.music.pendingStop && a.audio.Some?
  }

  lemma {:induction false} PlayingTick(a: App, now: nat, encodes: bool)
    requires Playing(a) && Left(a) != []
    ensures var a' := Tick(a, now, encodes).0;
            && Playing(a') && |Left(a)| >= AUDIO_FRAME_SAMPLES
            && MusicAt(a, now) == Left(a)[..AUDIO_FRAME_SAMPLES]
            && Left(a') == Left(a)[AUDIO_FRAME_SAMPLES..]
  {
    PullKeepsInv(a);
    PullKeeps(a.audio.value, a.queue);
    if a.queue == [] { assert Left(a) == a.audio.value.music; }
    var b := TickPull(a);
    assert BeforeFrame(a, now) == b;
    FrameKeepsInv(b, encodes);
    FramePlays(b.audio.value, b.queue, encodes);
  }

  /** The next ticks play what is left from its first sample on. */
  lemma {:induction false} PlayingTicks(a: App, ts: seq<TickInput>)
    requires Playing(a) && AUDIO_FRAME_SAMPLES * |ts| <= |Left(a)|
    ensures |PlayedBy(a, ts)| == |ts| && Plays(PlayedBy(a, ts), Left(a))
    decreases |ts|
  {
    if ts != [] {
      var a' := Tick(a, ts[0].now, ts[0].encodes).0;
      PlayingTick(a, ts[0].now, ts[0].encodes);
      PlayingTicks(a', ts[1..]);
      PlaysCons(Left(a), PlayedBy(a', ts[1..]));
    }
  }

  // ---------------------------------------------------------------- pause, then resume

  /** The player goes on where it was stopped. */
  predicate InPlace(a: App, alive: bool, resumes: bool) {
    a.music.hasPlayer && alive && resumes
  }

  /** The player is gone, and something of its music is left. */
  predicate TailOnly(a: App, alive: bool) {
    !(a.music.hasPlayer && alive) && (a.queue != [] || (a.audio.Some? && a.audio.value.music != []))
  }

  lemma {:induction false} PauseHolds(a: App, alive: bool)
    requires Inv(a) && a.music.active && a.audio.Some?
    ensures var b := Handle(a, MusicPause(alive));
            && HeldBack(b) && Left(b) == Left(a) && b.audio.value.pcm == a.audio.value.pcm
            && b.music.activeUrl == a.music.activeUrl && b.log == a.log + [PlayerPaused]
  {
    PauseKeepsInv(a, alive);
  }

  /** What a resume does to the output: it is kept in place or as a tail, cleared for a restart, and left as it
      is if there is nothing to resume. */
  lemma {:induction false} ResumeOutcome(a: App, alive: bool, resumes: bool)
    requires Inv(a) && a.audio.Some?
    ensures var b := Handle(a, MusicResume(alive, resumes));
            && b.audio.Some?
            && (InPlace(a, alive, resumes) || TailOnly(a, alive) ==>
                  && Playing(b) && Left(b) == Left(a) && b.audio.value.pcm == a.audio.value.pcm
                  && (b.music.finishing <==> !InPlace(a, alive, resumes))
                  && b.log == a.log + [PlayerPlaying])
            && (!InPlace(a, alive, resumes) && !TailOnly(a, alive) && a.music.activeUrl.Some? ==>
                  && Playing(b) && b.music.hasPlayer && !b.music.finishing && Left(b) == [] && b.audio.value.pcm == []
                  && b.music.activeUrl == a.music.activeUrl && b.log == a.log + [PlayerPlaying])
            && (!InPlace(a, alive, resumes) && !TailOnly(a, alive) && a.music.activeUrl.None? ==>
                  b.audio == a.audio && b.queue == a.queue && b.log == a.log && !b.music.finishing)
  {
    ResumeKeepsInv(a, alive, resumes);
  }

  /** A playing track that is paused and resumed, in place or with a dead player and something left: whatever
      ticks, chunks and speech come in between, no music plays meanwhile and none is lost; the resumed
      track goes on with its first unplayed sample, and the chunks that came in follow. */
  lemma {:induction false} PauseLosesNothing(a: App, alive: bool, inputs: seq<Input>, aliveThen: bool, resumes: bool, ts: seq<TickInput>)
    requires Inv(a) && a.music.active && a.audio.Some? && AllWhilePaused(inputs)
    requires var b := RunInputs(Handle(a, MusicPause(alive)), inputs); InPlace(b, aliveThen, resumes) || TailOnly(b, aliveThen)
    requires AUDIO_FRAME_SAMPLES * |ts| <= |Left(a) + ChunksOf(inputs)|
    ensures var c := Handle(RunInputs(Handle(a, MusicPause(alive)), inputs), MusicResume(aliveThen, resumes));
            && PlaysNothing(Handle(a, MusicPause(alive)), inputs)
            && Left(c) == Left(a) + ChunksOf(inputs)
            && |PlayedBy(c, ts)| == |ts| && Plays(PlayedBy(c, ts), Left(a) + ChunksOf(inputs))
  {
    var p := Handle(a, MusicPause(alive));
    var b := RunInputs(p, inputs);
    PauseHolds(a, alive);
    HeldRun(p, inputs);
    ResumeOutcome(b, aliveThen, resumes);
    PlayingTicks(Handle(b, MusicResume(aliveThen, resumes)), ts);
  }

  /** A tail that is resumed after its player's end plays out, and the track is reported idle once. */
  lemma {:induction false} TailPlaysOut(a: App, alive: bool, resumes: bool, ts: seq<TickInput>)
    requires Inv(a) && a.audio.Some? && TailOnly(a, alive)
    ensures var b := Handle(a, MusicResume(alive, resumes));
            && Plays(PlayedBy(b, ts), Left(a))
            && RunTicks(b, ts).log ==
               a.log + [PlayerPlaying] + if AUDIO_FRAME_SAMPLES * |ts| > |Left(a)| then [PlayerIdle, MusicIdle] else []
  {
    ResumeOutcome(a, alive, resumes);
    DrainingTicks(Handle(a, MusicResume(alive, resumes)), ts);
  }

  /** A pause is announced when there is something to pause: a live player, or a track that plays or finishes. */
  lemma {:induction false} PauseAnnouncedIff(a: App, alive: bool)
    ensures Handle(a, MusicPause(alive)).log ==
            a.log + if (a.music.hasPlayer && alive) || a.music.active || a.music.finishing then [PlayerPaused] else []
  {
  }

  /** A paused track counts as finishing exactly if it was, or if its player is gone and something is left; only
      then does losing the connection, with nothing in the queue, end it: the next tick reports it idle. */
  lemma {:induction false} PausedTrackEndsWithConnection(a: App, alive: bool, now: nat, encodes: bool)
    requires Inv(a) && a.music.active && a.queue == []
    ensures var b := HandleEvent(Handle(a, MusicPause(alive)), ConnectionReplaced);
            Tick(b, now, encodes).0.log ==
            a.log + [PlayerPaused] + if a.music.finishing || TailOnly(a, alive) then [PlayerIdle, MusicIdle] else []
  {
  }
}
