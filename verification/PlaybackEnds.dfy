/** What ends playback and what is left of it: stops, a failed pipeline, a new track and a new connection
    (`src/playback_supervisor.rs`, `src/music.rs`). */
module PlaybackEnds {
  import opened Bytes
  import opened AudioSend
  import opened Playback
  import opened MusicDrain

  /** No tick of the run takes speech. */
  ghost predicate NoSpeech(a: App, ts: seq<TickInput>)
    decreases |ts|
  {
    ts != [] ==> SpeechAt(a, ts[0].now) == [] && NoSpeech(Tick(a, ts[0].now, ts[0].encodes).0, ts[1..])
  }

  /** No tick of the run sends anything. */
  ghost predicate NoFrames(a: App, ts: seq<TickInput>)
    decreases |ts|
  {
    ts != [] ==> Tick(a, ts[0].now, ts[0].encodes).1 == Nothing && NoFrames(Tick(a, ts[0].now, ts[0].encodes).0, ts[1..])
  }

  predicate SpeechGone(a: App) {
    a.audio.Some? ==> a.audio.value.pcm == []
  }

  /** Nothing that a tick does before its frame brings speech. */
  lemma {:induction false} PullKeepsPcm(s: State, queue: seq<seq<sample>>)
    ensures Pull(s, queue).0.pcm == s.pcm
    decreases |queue|
  {
    if queue != [] && CanAcceptMusicChunk(s) { PullKeepsPcm(PushMusicPcm(s, queue[0]), queue[1..]); }
  }

  lemma {:induction false} BeforeFrameBringsNone(a: App, now: nat)
    requires SpeechGone(a)
    ensures SpeechGone(BeforeFrame(a, now))
  {
    var b := TickPendingStart(a, now);
    if b.audio.Some? { PullKeepsPcm(b.audio.value, b.queue); }
  }

  lemma {:induction false} SilentTick(a: App, now: nat, encodes: bool)
    requires SpeechGone(a)
    ensures SpeechGone(Tick(a, now, encodes).0) && SpeechAt(a, now) == []
  {
    BeforeFrameBringsNone(a, now);
    var b := BeforeFrame(a, now);
    if b.audio.Some? {
      TickConserves(b.audio.value, encodes);
      GateKeeps(b.audio.value);
    }
  }

  lemma {:induction false} SpeechGoneRun(a: App, ts: seq<TickInput>)
    requires SpeechGone(a)
    ensures NoSpeech(a, ts)
    decreases |ts|
  {
    if ts != [] {
      SilentTick(a, ts[0].now, ts[0].encodes);
      SpeechGoneRun(Tick(a, ts[0].now, ts[0].encodes).0, ts[1..]);
    }
  }

  /** Stopping speech drops all of it, and no music. */
  lemma {:induction false} StopTtsSilencesSpeech(a: App, ts: seq<TickInput>)
    ensures var b := Handle(a, StopTtsPlayback);
            && NoSpeech(b, ts) && Left(b) == Left(a) && b.music == a.music && b.queue == a.queue && b.log == a.log
  {
    SpeechGoneRun(Handle(a, StopTtsPlayback), ts);
  }

  /** Nothing at all to play. */
  predicate AllGone(a: App) {
    && !a.music.active && !a.music.finishing && a.music.pendingUrl.None? && !a.music.pendingStop
    && a.queue == []
    && (a.audio.Some? ==> a.audio.value.pcm == [] && a.audio.value.music == [] && a.audio.value.trailingSilence >= 5)
  }

  lemma {:induction false} GoneRun(a: App, ts: seq<TickInput>)
    requires AllGone(a)
    ensures NoFrames(a, ts) && RunTicks(a, ts).log == a.log
    decreases |ts|
  {
    if ts != [] {
      assert BeforeFrame(a, ts[0].now) == a;
      GoneRun(Tick(a, ts[0].now, ts[0].encodes).0, ts[1..]);
    }
  }

  /** Stopping all playback, or the music when none plays, clears everything: ticks send nothing, and what was
      said is said once. */
  lemma {:induction false} StopSilencesAll(a: App, ts: seq<TickInput>)
    ensures var b := Handle(a, StopPlayback); NoFrames(b, ts) && RunTicks(b, ts).log == a.log + [PlayerIdle]
    ensures !(a.music.hasPlayer && a.music.active) ==>
              var b := Handle(a, MusicStop); NoFrames(b, ts) && RunTicks(b, ts).log == a.log + [PlayerIdle, MusicIdle]
  {
    GoneRun(Handle(a, StopPlayback), ts);
    if !(a.music.hasPlayer && a.music.active) { GoneRun(Handle(a, MusicStop), ts); }
  }

  /** A failed pipeline ends its track: the error is reported, nothing more is pulled, and what is buffered
      already plays on. */
  lemma {:induction false} ErrorEndsTrack(a: App, ts: seq<TickInput>)
    requires Inv(a) && a.audio.Some?
    ensures var b := HandleEvent(a, PipelineError);
            && Plays(PlayedBy(b, ts), Audible(a.audio.value))
            && RunTicks(b, ts).log == a.log + [MusicError, PlayerIdle]
            && b.queue == [] && b.music == NO_MUSIC
  {
    EventKeepsInv(a, PipelineError);
    EndedTicks(HandleEvent(a, PipelineError), ts);
  }

  /** A new track begins with none of the old one's music, and speech is kept; without a URL only the error
      is reported. */
  lemma {:induction false} PlayDropsOldTrack(a: App, url: string, direct: bool, now: nat)
    ensures var b := Handle(a, MusicPlay(url, direct, now));
            if url == "" then b == a.(log := a.log + [MusicError])
            else
              && Left(b) == [] && b.queue == [] && b.music.hasPlayer && !b.music.active && b.log == a.log
              && (a.audio.Some? <==> b.audio.Some?)
              && (a.audio.Some? ==> b.audio.value.pcm == a.audio.value.pcm && !b.audio.value.suppressed)
  {
  }

  /** A lost connection ends the track and drops everything; a replaced one drops what is buffered but keeps
      the track and its queue. */
  lemma {:induction false} ReconnectStartsEmpty(a: App)
    ensures HandleEvent(a, Disconnected).audio.None? && HandleEvent(a, ConnectionReplaced).audio.None?
    ensures HandleEvent(a, Connected) == a.(audio := Some(INITIAL))
    ensures var b := HandleEvent(HandleEvent(a, Disconnected), Connected);
            b.audio == Some(INITIAL) && Left(b) == [] && b.queue == [] && b.music == NO_MUSIC && b.log == a.log
    ensures var b := HandleEvent(HandleEvent(a, ConnectionReplaced), Connected);
            b.audio == Some(INITIAL) && Left(b) == Flatten(a.queue) && b.queue == a.queue && b.music == a.music && b.log == a.log
  {
    assert [] + Flatten(a.queue) == Flatten(a.queue);
  }
}
