/** What is still heard after the music pipeline has ended. */
module MusicDrain {
  import opened Bytes
  import opened AudioSend
  import opened Playback

  datatype TickInput = TickInput(now: nat, encodes: bool)

  /** Music not yet played: the outbound buffer, then the queue. */
  function Left(a: App): seq<sample> {
    (if a.audio.Some? then a.audio.value.music else []) + Flatten(a.queue)
  }

  function FramesLeft(a: App): nat {
    |Left(a)| / AUDIO_FRAME_SAMPLES
  }

  /** The music samples that a tick takes for its frame. */
  function MusicAt(a: App, now: nat): seq<sample> {
    var b := BeforeFrame(a, now);
    if b.audio.Some? then PlayedMusic(b.audio.value) else []
  }

  /** The speech samples that a tick takes, and the gain its music starts at. */
  function SpeechAt(a: App, now: nat): seq<sample> {
    var b := BeforeFrame(a, now);
    if b.audio.Some? then PlayedTts(b.audio.value) else []
  }

  function GainAt(a: App, now: nat): Gain
    requires BeforeFrame(a, now).audio.Some?
  {
    BeforeFrame(a, now).audio.value.gain
  }

  function RunTicks(a: App, ts: seq<TickInput>): App
    decreases |ts|
  {
    if ts == [] then a else RunTicks(Tick(a, ts[0].now, ts[0].encodes).0, ts[1..])
  }

  /** The music that each tick of a run takes. */
  function PlayedBy(a: App, ts: seq<TickInput>): seq<seq<sample>>
    decreases |ts|
  {
    if ts == [] then [] else [MusicAt(a, ts[0].now)] + PlayedBy(Tick(a, ts[0].now, ts[0].encodes).0, ts[1..])
  }

  /** Each tick with a working encoder sends the mix of its speech with the next 960 samples of `music`. */
  ghost predicate SendsMixes(a: App, ts: seq<TickInput>, music: seq<sample>)
    decreases |ts|
  {
    ts != [] && |music| >= AUDIO_FRAME_SAMPLES ==>
      var (now, encodes) := (ts[0].now, ts[0].encodes);
      && BeforeFrame(a, now).audio.Some?
      && (encodes ==> Tick(a, now, encodes).1 == Encoded(Mixed(SpeechAt(a, now), music[..AUDIO_FRAME_SAMPLES], GainAt(a, now))))
      && SendsMixes(Tick(a, now, encodes).0, ts[1..], music[AUDIO_FRAME_SAMPLES..])
  }

  /** Playing out what the ended pipeline left. */
  ghost predicate Draining(a: App) {
    Inv(a) && a.music.active && a.music.finishing && a.music.pendingUrl.None? && !a.music.pendingStop && a.audio.Some?
  }

  /** Nothing playing, nothing to come. */
  ghost predicate Settled(a: App) {
    && !a.music.active && !a.music.finishing && a.music.pendingUrl.None? && !a.music.pendingStop && a.music.activeUrl.None?
    && (a.audio.Some? ==> !HasMusic(a.audio.value))
  }

  lemma {:induction false} FlattenFrames(queue: seq<seq<sample>>)
    requires ChunksOf960(queue)
    ensures |Flatten(queue)| == AUDIO_FRAME_SAMPLES * |queue|
  {
    if queue != [] {
      assert ChunksOf960(queue[1..]);
      FlattenFrames(queue[1..]);
    }
  }

  lemma {:induction false} PulledIsPlayable(a: App)
    requires Draining(a) && Left(a) != []
    ensures var b := TickPull(a);
            && b == a.(audio := b.audio, queue := b.queue) && b.audio.Some?
            && Inv(b) && HasMusic(b.audio.value) && Left(b) == Left(a)
  {
    PullKeepsInv(a);
    PullKeeps(a.audio.value, a.queue);
    if a.queue == [] { assert Left(a) == a.audio.value.music; }
  }

  lemma {:induction false} FramePlays(s: State, queue: seq<seq<sample>>, encodes: bool)
    requires HasMusic(s)
    ensures var (s', frame) := Next(s, encodes);
            && PlayedMusic(s) == (s.music + Flatten(queue))[..AUDIO_FRAME_SAMPLES]
            && s'.music + Flatten(queue) == (s.music + Flatten(queue))[AUDIO_FRAME_SAMPLES..]
            && frame == if encodes then Encoded(Mixed(PlayedTts(s), PlayedMusic(s), s.gain)) else Nothing
  {
    MusicNeverWaits(s);
    TickConserves(s, encodes);
    var s' := Next(s, encodes).0;
    Assoc(PlayedMusic(s), s'.music, Flatten(queue));
  }

  lemma {:induction false} DrainingTick(a: App, now: nat, encodes: bool)
    requires Draining(a) && Left(a) != []
    ensures var (a', frame) := Tick(a, now, encodes);
            && Draining(a') && a'.log == a.log
            && |Left(a)| >= AUDIO_FRAME_SAMPLES
            && MusicAt(a, now) == Left(a)[..AUDIO_FRAME_SAMPLES]
            && Left(a') == Left(a)[AUDIO_FRAME_SAMPLES..]
            && BeforeFrame(a, now).audio.Some?
            && (encodes ==> frame == Encoded(Mixed(SpeechAt(a, now), Left(a)[..AUDIO_FRAME_SAMPLES], GainAt(a, now))))
  {
    PulledIsPlayable(a);
    var b := TickPull(a);
    assert BeforeFrame(a, now) == b;
    FrameKeepsInv(b, encodes);
    FramePlays(b.audio.value, b.queue, encodes);
  }

  lemma {:induction false} LastTick(a: App, now: nat, encodes: bool)
    requires Draining(a) && Left(a) == []
    ensures var a' := Tick(a, now, encodes).0;
            Settled(a') && a'.log == a.log + [PlayerIdle, MusicIdle] && MusicAt(a, now) == []
  {
    assert a.audio.value.music == [] && Flatten(a.queue) == [];
    FlattenFrames(a.queue);
    assert a.queue == [];
    TickConserves(a.audio.value, encodes);
  }

  lemma {:induction false} SettledTick(a: App, now: nat, encodes: bool)
    requires Settled(a)
    ensures var a' := Tick(a, now, encodes).0; Settled(a') && a'.log == a.log && MusicAt(a, now) == []
  {
    if a.audio.Some? { TickConserves(a.audio.value, encodes); }
  }

  lemma {:induction false} SettledTicks(a: App, ts: seq<TickInput>)
    requires Settled(a)
    ensures Settled(RunTicks(a, ts)) && RunTicks(a, ts).log == a.log
    ensures |PlayedBy(a, ts)| == |ts| && forall k | 0 <= k < |ts| :: PlayedBy(a, ts)[k] == []
    decreases |ts|
  {
    if ts != [] {
      SettledTick(a, ts[0].now, ts[0].encodes);
      SettledTicks(Tick(a, ts[0].now, ts[0].encodes).0, ts[1..]);
    }
  }

  /** Frame `k` of what is left to play. */
  function FrameOf(music: seq<sample>, k: nat): seq<sample> {
    if AUDIO_FRAME_SAMPLES * (k + 1) <= |music| then music[AUDIO_FRAME_SAMPLES * k..AUDIO_FRAME_SAMPLES * (k + 1)] else []
  }

  /** Tick k plays frame k. */
  ghost predicate Plays(played: seq<seq<sample>>, music: seq<sample>) {
    forall k | 0 <= k < |played| :: played[k] == FrameOf(music, k)
  }

  lemma {:induction false} PlaysCons(music: seq<sample>, rest: seq<seq<sample>>)
    requires |music| >= AUDIO_FRAME_SAMPLES && Plays(rest, music[AUDIO_FRAME_SAMPLES..])
    ensures Plays([music[..AUDIO_FRAME_SAMPLES]] + rest, music)
  {
    var played := [music[..AUDIO_FRAME_SAMPLES]] + rest;
    forall k | 0 <= k < |played| ensures played[k] == FrameOf(music, k) {
      if k > 0 {
        assert played[k] == rest[k - 1] == FrameOf(music[AUDIO_FRAME_SAMPLES..], k - 1);
      }
    }
  }

  /** The ticks after the last frame. */
  lemma {:induction false} DrainedTicks(a: App, ts: seq<TickInput>)
    requires Draining(a) && Left(a) == []
    ensures |PlayedBy(a, ts)| == |ts| && Plays(PlayedBy(a, ts), Left(a))
    ensures RunTicks(a, ts).log == a.log + if ts != [] then [PlayerIdle, MusicIdle] else []
    ensures ts != [] ==> RunTicks(a, ts).music.activeUrl.None?
  {
    if ts != [] {
      LastTick(a, ts[0].now, ts[0].encodes);
      SettledTicks(Tick(a, ts[0].now, ts[0].encodes).0, ts[1..]);
    }
  }

  lemma {:induction false} DrainingTicks(a: App, ts: seq<TickInput>)
    requires Draining(a)
    ensures |PlayedBy(a, ts)| == |ts| && Plays(PlayedBy(a, ts), Left(a)) && SendsMixes(a, ts, Left(a))
    ensures RunTicks(a, ts).log == a.log + if AUDIO_FRAME_SAMPLES * |ts| > |Left(a)| then [PlayerIdle, MusicIdle] else []
    ensures AUDIO_FRAME_SAMPLES * |ts| > |Left(a)| ==> RunTicks(a, ts).music.activeUrl.None?
    decreases |ts|
  {
    if Left(a) == [] {
      DrainedTicks(a, ts);
    } else if ts != [] {
      var a' := Tick(a, ts[0].now, ts[0].encodes).0;
      DrainingTick(a, ts[0].now, ts[0].encodes);
      DrainingTicks(a', ts[1..]);
      PlaysCons(Left(a), PlayedBy(a', ts[1..]));
    }
  }

  lemma {:induction false} FrameMultiple(n: nat, q: nat)
    requires n % AUDIO_FRAME_SAMPLES == 0
    ensures (n + AUDIO_FRAME_SAMPLES * q) % AUDIO_FRAME_SAMPLES == 0
    ensures n + AUDIO_FRAME_SAMPLES * q == AUDIO_FRAME_SAMPLES * ((n + AUDIO_FRAME_SAMPLES * q) / AUDIO_FRAME_SAMPLES)
  {
    var f := n / AUDIO_FRAME_SAMPLES;
    assert n + AUDIO_FRAME_SAMPLES * q == AUDIO_FRAME_SAMPLES * (f + q);
  }

  /** After the track was reported idle: ticks play on what the buffer holds, but pull nothing from the queue. */
  ghost predicate Ended(a: App) {
    && Inv(a) && !a.music.active && !a.music.finishing && a.music.pendingUrl.None? && !a.music.pendingStop
    && a.music.activeUrl.None? && a.audio.Some?
  }

  function Audible(s: State): seq<sample> {
    if s.suppressed then [] else s.music
  }

  lemma {:induction false} EndedTick(a: App, now: nat, encodes: bool)
    requires Ended(a)
    ensures var a' := Tick(a, now, encodes).0;
            && Ended(a') && a'.log == a.log
            && (if Audible(a.audio.value) == [] then MusicAt(a, now) == [] && Audible(a'.audio.value) == []
                else
                  && |Audible(a.audio.value)| >= AUDIO_FRAME_SAMPLES
                  && MusicAt(a, now) == Audible(a.audio.value)[..AUDIO_FRAME_SAMPLES]
                  && Audible(a'.audio.value) == Audible(a.audio.value)[AUDIO_FRAME_SAMPLES..])
  {
    assert BeforeFrame(a, now) == a;
    FrameKeepsInv(a, encodes);
    TickConserves(a.audio.value, encodes);
  }

  lemma {:induction false} EndedTicks(a: App, ts: seq<TickInput>)
    requires Ended(a)
    ensures |PlayedBy(a, ts)| == |ts| && Plays(PlayedBy(a, ts), Audible(a.audio.value))
    ensures RunTicks(a, ts).log == a.log && RunTicks(a, ts).music.activeUrl.None?
    decreases |ts|
  {
    if ts != [] {
      var a' := Tick(a, ts[0].now, ts[0].encodes).0;
      var rest := PlayedBy(a', ts[1..]);
      assert PlayedBy(a, ts) == [MusicAt(a, ts[0].now)] + rest;
      EndedTick(a, ts[0].now, ts[0].encodes);
      EndedTicks(a', ts[1..]);
      if Audible(a.audio.value) != [] { PlaysCons(Audible(a.audio.value), rest); }
    }
  }

  // ---------------------------------------------------------------- what is heard, and when it is all

  /** The music that ticks play after the pipeline's end. */
  function Heard(a: App): seq<sample>
    requires a.audio.Some?
  {
    if a.music.active then Left(a) else Audible(a.audio.value)
  }

  /** The pipeline ends while music is active: tick k plays exactly the k-th 960 samples of what was buffered
      and queued and, if the encoder works, sends them mixed with its speech; MusicIdle is said exactly once,
      on the tick after the last of them. Speech that is buffered at the same time changes none of this. */
  lemma {:induction false} MusicDrains(a: App, ts: seq<TickInput>)
    requires Inv(a) && a.music.active && a.audio.Some?
    ensures var b := HandleEvent(a, PipelineIdle);
            var frames := FramesLeft(a);
            && |Left(a)| == AUDIO_FRAME_SAMPLES * frames
            && |PlayedBy(b, ts)| == |ts|
            && Plays(PlayedBy(b, ts), Left(a))
            && SendsMixes(b, ts, Left(a))
            && RunTicks(b, ts).log == a.log + (if |ts| > frames then [PlayerIdle, MusicIdle] else [])
            && (|ts| > frames ==> RunTicks(b, ts).music.activeUrl.None?)
  {
    var b := HandleEvent(a, PipelineIdle);
    EventKeepsInv(a, PipelineIdle);
    assert Draining(b);
    LeftInFrames(a);
    DrainingTicks(b, ts);
  }

  lemma {:induction false} LeftInFrames(a: App)
    requires Inv(a) && a.audio.Some?
    ensures |Left(a)| == AUDIO_FRAME_SAMPLES * FramesLeft(a)
  {
    FlattenFrames(a.queue);
    FrameMultiple(|a.audio.value.music|, |a.queue|);
  }

  /** In every state: what is heard after the pipeline's end, and when the track is reported idle; from then on
      there is nothing that a resume could start again. */
  lemma {:induction false} HeardAfterIdle(a: App, ts: seq<TickInput>)
    requires Inv(a) && a.audio.Some?
    ensures var b := HandleEvent(a, PipelineIdle);
            && |PlayedBy(b, ts)| == |ts|
            && Plays(PlayedBy(b, ts), Heard(a))
            && RunTicks(b, ts).log == a.log + (if !a.music.active || |ts| > FramesLeft(a) then [PlayerIdle, MusicIdle] else [])
            && (!a.music.active || |ts| > FramesLeft(a) ==> RunTicks(b, ts).music.activeUrl.None?)
  {
    if a.music.active {
      MusicDrains(a, ts);
    } else {
      EventKeepsInv(a, PipelineIdle);
      EndedTicks(HandleEvent(a, PipelineIdle), ts);
    }
  }

  lemma {:induction false} FlattenSnoc(parts: seq<seq<sample>>, x: seq<sample>)
    ensures Flatten(parts + [x]) == Flatten(parts) + x
  {
    if parts == [] {
      assert [x][1..] == [];
    } else {
      assert (parts + [x])[1..] == parts[1..] + [x];
      FlattenSnoc(parts[1..], x);
    }
  }

  lemma {:induction false} PlaysAll(played: seq<seq<sample>>, music: seq<sample>)
    requires Plays(played, music) && |music| % AUDIO_FRAME_SAMPLES == 0
    ensures Flatten(played) == music[..Min(AUDIO_FRAME_SAMPLES * |played|, |music|)]
    decreases |played|
  {
    if played != [] {
      var k := |played| - 1;
      PlaysAll(played[..k], music);
      FlattenSnoc(played[..k], played[k]);
      assert played[..k] + [played[k]] == played;
      assert played[k] == FrameOf(music, k);
    }
  }

  lemma {:induction false} HeardInFrames(a: App)
    requires Inv(a) && a.audio.Some?
    ensures |Heard(a)| % 960 == 0 && |Heard(a)| <= |Left(a)| == 960 * FramesLeft(a)
    ensures Heard(a) == Left(a) <==>
            a.music.active || (a.queue == [] && (a.audio.value.music == [] || !a.audio.value.suppressed))
  {
    LeftInFrames(a);
    FlattenFrames(a.queue);
    if a.queue == [] { assert Left(a) == a.audio.value.music; }
  }

  /** Everything buffered and queued is heard after the pipeline's end if and only if the track is active, or
      nothing waits in the queue and what the buffer holds, if anything, is not suppressed. */
  lemma {:induction false} AllIsHeardIff(a: App, ts: seq<TickInput>)
    requires Inv(a) && a.audio.Some? && |ts| >= FramesLeft(a)
    ensures Flatten(PlayedBy(HandleEvent(a, PipelineIdle), ts)) == Left(a) <==>
            a.music.active || (a.queue == [] && (a.audio.value.music == [] || !a.audio.value.suppressed))
  {
    HeardAfterIdle(a, ts);
    HeardInFrames(a);
    var played := PlayedBy(HandleEvent(a, PipelineIdle), ts);
    PlaysAll(played, Heard(a));
    assert Heard(a)[..|Heard(a)|] == Heard(a);
  }

  /** A paused track of which anything is left is never played to its end by ticks alone: it is reported idle
      at once, and its output stays suppressed. */
  lemma {:induction false} IdleWhileSuppressedDropsTrack(a: App, ts: seq<TickInput>)
    requires Inv(a) && a.audio.Some? && a.audio.value.suppressed
    ensures var b := HandleEvent(a, PipelineIdle);
            && b.queue == a.queue
            && RunTicks(b, ts).log == a.log + [PlayerIdle, MusicIdle]
            && |PlayedBy(b, ts)| == |ts|
            && forall k | 0 <= k < |ts| :: PlayedBy(b, ts)[k] == []
  {
    HeardAfterIdle(a, ts);
  }

  /** A track has started and was paused, and its last chunk has come into the queue. */
  function PausedWithTail(chunk: seq<sample>): App {
    var started := Step(Step(Step(START, OnEvent(Connected)), OnCommand(MusicPlay("u", false, 0))), OnTick(15_001, true));
    Step(Step(started, OnCommand(MusicPause(true))), OnEvent(PipelineChunk(chunk)))
  }

  /** A failing input: if the pipeline ends now, idle is said at once and the chunk is not heard. */
  lemma {:induction false} PausedTailIsDropped(chunk: seq<sample>, ts: seq<TickInput>)
    requires |chunk| == AUDIO_FRAME_SAMPLES
    ensures var a := PausedWithTail(chunk);
            && Inv(a) && Left(a) == chunk
            && RunTicks(HandleEvent(a, PipelineIdle), ts).log == a.log + [PlayerIdle, MusicIdle]
            && forall k | 0 <= k < |PlayedBy(HandleEvent(a, PipelineIdle), ts)| :: PlayedBy(HandleEvent(a, PipelineIdle), ts)[k] == []
  {
    var pending := Step(Step(START, OnEvent(Connected)), OnCommand(MusicPlay("u", false, 0)));
    PlayKeepsInv(HandleEvent(START, Connected), "u", false, 0);
    StartsEmpty(pending);
    var started := Step(pending, OnTick(15_001, true));
    TickKeepsInv(pending, 15_001, true);
    PauseKeepsInv(started, true);
    var a := PausedWithTail(chunk);
    EventKeepsInv(Step(started, OnCommand(MusicPause(true))), PipelineChunk(chunk));
    FlattenSnoc([], chunk);
    assert [] + [chunk] == [chunk] && [] + chunk == chunk;
    IdleWhileSuppressedDropsTrack(a, ts);
  }

  /** A start that comes due before any chunk has arrived. */
  lemma {:induction false} StartsEmpty(a: App)
    requires a.music.pendingUrl.Some? && a.music.pendingReceivedAt == Some(0)
    requires !a.music.finishing && !a.music.pendingStop && a.audio.Some? && a.audio.value.music == [] && a.queue == []
    ensures var b := Tick(a, 15_001, true).0;
            && b.music.active && b.music.hasPlayer == a.music.hasPlayer && !b.music.finishing
            && b.audio.Some? && b.audio.value.music == [] && b.queue == []
  {
    var b := TickPendingStart(a, 15_001);
    assert BeforeFrame(a, 15_001) == TickPull(b) == b;
    TickConserves(b.audio.value, true);
  }

  /** The pipeline ends while its start is still pending, as a track short enough to fit the queue does: the
      track is reported idle at once and not one of its samples is ever played. */
  lemma {:induction false} IdleWhilePendingDropsTrack(a: App, ts: seq<TickInput>)
    requires Inv(a) && a.music.pendingUrl.Some?
    ensures var b := HandleEvent(a, PipelineIdle);
            && b.queue == a.queue
            && RunTicks(b, ts).log == a.log + [PlayerIdle, MusicIdle]
            && |PlayedBy(b, ts)| == |ts|
            && forall k | 0 <= k < |ts| :: PlayedBy(b, ts)[k] == []
  {
    var b := HandleEvent(a, PipelineIdle);
    assert Settled(b);
    SettledTicks(b, ts);
  }
}
