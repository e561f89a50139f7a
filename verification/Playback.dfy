/** The music state machine of `src/playback_supervisor.rs` and `src/music.rs`: commands, pipeline events
    and the 20 ms tick that moves music from the pipeline's queue to the outbound buffer.

    Times are milliseconds. Whether the player process is alive and can be resumed is decided outside. */
module Playback {
  import opened Bytes
  import opened AudioSend

  // ---------------------------------------------------------------- state

  datatype Music = Music(
    hasPlayer: bool,
    active: bool,
    paused: bool,
    finishing: bool,
    activeUrl: Option<string>,
    activeDirect: bool,
    pendingUrl: Option<string>,
    pendingReceivedAt: Option<nat>,
    pendingAudioSeen: bool,
    pendingLastAudioAt: Option<nat>,
    pendingWaitingForDrain: bool,
    pendingDrainStartedAt: Option<nat>,
    pendingDirect: bool,
    pendingStop: bool)

  datatype Message = PlayerIdle | PlayerPlaying | PlayerPaused | MusicIdle | MusicError

  /** The pipeline's queue holds chunks of 960 samples; there is no audio state without a voice connection. */
  datatype App = App(music: Music, queue: seq<seq<sample>>, audio: Option<State>, log: seq<Message>)

  const NO_MUSIC :=
    Music(false, false, false, false, None, false, None, None, false, None, false, None, false, false)

  const START := App(NO_MUSIC, [], None, [])

  function ClearPendingStart(m: Music): Music {
    m.(pendingUrl := None, pendingReceivedAt := None, pendingAudioSeen := false, pendingLastAudioAt := None,
       pendingWaitingForDrain := false, pendingDrainStartedAt := None, pendingDirect := false)
  }

  function ResetMusic(m: Music): Music {
    ClearPendingStart(m.(hasPlayer := false, active := false, paused := false, finishing := false,
                         activeUrl := None, activeDirect := false, pendingStop := false))
  }

  function QueuePendingStart(m: Music, url: string, direct: bool, now: nat): Music {
    Music(false, false, false, false, Some(url), direct, Some(url), Some(now), false, None, false, None, direct, false)
  }

  function OnAudio(a: App, s: State): App {
    a.(audio := Some(s))
  }

  function Say(a: App, messages: seq<Message>): App {
    a.(log := a.log + messages)
  }

  function ClearAudio(a: App): App {
    if a.audio.Some? then OnAudio(a, Clear(a.audio.value)) else a
  }

  function StartPipeline(a: App, clearOutput: bool): App {
    var b := a.(music := a.music.(hasPlayer := true), queue := []);
    if clearOutput then ClearAudio(b) else b
  }

  // ---------------------------------------------------------------- commands

  datatype Command =
    | Audio(samples: seq<sample>, now: nat)
    | StopPlayback
    | StopTtsPlayback
    | MusicPlay(url: string, direct: bool, now: nat)
    | MusicStop
    | MusicPause(alive: bool)
    | MusicResume(alive: bool, resumes: bool)
    | MusicSetGain(target: real, fadeMs: u32)

  function HandleAudio(a: App, samples: seq<sample>, now: nat): App {
    var b := if a.music.pendingUrl.None? then a
             else a.(music := a.music.(pendingAudioSeen := true, pendingLastAudioAt := Some(now)));
    if b.music.active && !b.music.paused && !(b.audio.Some? && b.audio.value.gain.target < 1.0) then b
    else if samples != [] && b.audio.Some? then OnAudio(b, PushPcm(b.audio.value, samples))
    else b
  }

  function StopAll(a: App): App {
    ClearAudio(a.(music := ResetMusic(a.music), queue := []))
  }

  function HandleMusicPlay(a: App, url: string, direct: bool, now: nat): App {
    if url == "" then Say(a, [MusicError])
    else
      var b := if a.audio.Some? then OnAudio(a, ClearMusic(a.audio.value)) else a;
      StartPipeline(b.(music := QueuePendingStart(b.music, url, direct, now)), false)
  }

  function HandleMusicStop(a: App): App {
    if a.music.hasPlayer && a.music.active then
      var b := if a.audio.Some? then OnAudio(a, SetMusicGain(a.audio.value, 0.0, 300)) else a;
      b.(music := b.music.(pendingStop := true))
    else Say(StopAll(a), [PlayerIdle, MusicIdle])
  }

  predicate BufferedOutput(a: App) {
    a.queue != [] || (a.audio.Some? && a.audio.value.music != [])
  }

  function PauseOutput(a: App, finishing: bool): App {
    var b := a.(music := a.music.(paused := true, active := false, finishing := finishing));
    Say(if b.audio.Some? then OnAudio(b, Suppress(b.audio.value)) else b, [PlayerPaused])
  }

  function DropPending(a: App): App {
    a.(music := ClearPendingStart(a.music).(pendingStop := false))
  }

  function HandleMusicPause(a: App, alive: bool): App {
    var b := DropPending(a);
    var playerAlive := b.music.hasPlayer && alive;
    if playerAlive || b.music.active || b.music.finishing then
      PauseOutput(b, b.music.finishing || (!playerAlive && BufferedOutput(b)))
    else b
  }

  function ResumeOutput(a: App, finishing: bool): App {
    var b := if a.audio.Some? then OnAudio(a, Resume(a.audio.value)) else a;
    Say(b.(music := b.music.(paused := false, active := true, finishing := finishing)), [PlayerPlaying])
  }

  function BeforeResume(a: App): App {
    var b := DropPending(a);
    b.(music := b.music.(finishing := false))
  }

  /** A new pipeline for the same track, with the buffers cleared. */
  function Restart(a: App): App {
    var b := StartPipeline(a, true);
    Say(b.(music := b.music.(paused := false, active := true)), [PlayerPlaying])
  }

  function HandleMusicResume(a: App, alive: bool, resumes: bool): App {
    var b := BeforeResume(a);
    var playerAlive := b.music.hasPlayer && alive;
    if playerAlive && resumes then ResumeOutput(b, false)
    else if !playerAlive && BufferedOutput(b) then ResumeOutput(b, true)
    else if b.music.activeUrl.Some? then
      Restart(b)
    else b
  }

  function Handle(a: App, c: Command): App {
    match c
    case Audio(samples, now) => HandleAudio(a, samples, now)
    case StopPlayback => Say(StopAll(a), [PlayerIdle])
    case StopTtsPlayback => if a.audio.Some? then OnAudio(a, ClearTts(a.audio.value)) else a
    case MusicPlay(url, direct, now) => HandleMusicPlay(a, url, direct, now)
    case MusicStop => HandleMusicStop(a)
    case MusicPause(alive) => HandleMusicPause(a, alive)
    case MusicResume(alive, resumes) => HandleMusicResume(a, alive, resumes)
    case MusicSetGain(target, fadeMs) =>
      var clamped := if target < 0.0 then 0.0 else if target > 1.0 then 1.0 else target;
      if a.audio.Some? then OnAudio(a, SetMusicGain(a.audio.value, clamped, fadeMs)) else a
  }

  // ---------------------------------------------------------------- pipeline and connection events

  datatype Event = PipelineIdle | PipelineError | PipelineChunk(samples: seq<sample>) | Connected | Disconnected | ConnectionReplaced

  function PlayerEnded(m: Music): Music {
    ClearPendingStart(m.(hasPlayer := false, paused := false, finishing := m.active, pendingStop := false))
  }

  function HandlePipelineIdle(a: App): App {
    var m := PlayerEnded(a.music);
    if m.finishing then a.(music := m)
    else Say(a.(music := m.(activeUrl := None, activeDirect := false)), [PlayerIdle, MusicIdle])
  }

  function HandleEvent(a: App, e: Event): App {
    match e
    case PipelineIdle => HandlePipelineIdle(a)
    case PipelineError => Say(a.(music := ResetMusic(a.music), queue := []), [MusicError, PlayerIdle])
    case PipelineChunk(samples) => a.(queue := a.queue + [samples])
    case Connected => a.(audio := Some(INITIAL))
    case Disconnected => a.(music := ResetMusic(a.music), queue := [], audio := None)
    case ConnectionReplaced => a.(audio := None)
  }

  // ---------------------------------------------------------------- the tick

  function Elapsed(now: nat, since: Option<nat>): nat {
    if since.None? then 0 else Max(now - since.value, 0)
  }

  /** Announcement audio has been silent for half a second: wait for the speech buffer to drain. */
  function MarkDrain(m: Music, now: nat): Music {
    var lastAudio := if m.pendingLastAudioAt.Some? then m.pendingLastAudioAt else m.pendingReceivedAt;
    if m.pendingReceivedAt.Some? && Elapsed(now, m.pendingReceivedAt) <= 15_000 && m.pendingAudioSeen
       && !m.pendingWaitingForDrain && Elapsed(now, lastAudio) > 500
    then m.(pendingWaitingForDrain := true, pendingDrainStartedAt := Some(now))
    else m
  }

  predicate StartDue(m: Music, audio: Option<State>, now: nat) {
    || m.pendingReceivedAt.None?
    || Elapsed(now, m.pendingReceivedAt) > 15_000
    || (!m.pendingAudioSeen && Elapsed(now, m.pendingReceivedAt) > 5_000)
    || (m.pendingAudioSeen && m.pendingWaitingForDrain
        && (audio.None? || audio.value.pcm == [] || Elapsed(now, m.pendingDrainStartedAt) > 5_000))
  }

  function CommitStart(a: App): App {
    var m := a.music;
    var b := a.(music := ClearPendingStart(m).(finishing := false, activeUrl := m.pendingUrl,
                                               activeDirect := m.pendingDirect, active := true, paused := false));
    Say(if b.audio.Some? then OnAudio(b, BeginMusicFadeIn(b.audio.value, 1500)) else b, [PlayerPlaying])
  }

  function TickPendingStart(a: App, now: nat): App {
    if a.music.pendingUrl.None? then a
    else
      var b := a.(music := MarkDrain(a.music, now));
      if StartDue(b.music, b.audio, now) then CommitStart(b) else b
  }

  /** Chunks from the queue while the music buffer has room for another. */
  function Pull(s: State, queue: seq<seq<sample>>): (State, seq<seq<sample>>)
    decreases |queue|
  {
    if queue == [] || !CanAcceptMusicChunk(s) then (s, queue) else Pull(PushMusicPcm(s, queue[0]), queue[1..])
  }

  function TickPull(a: App): App {
    if a.music.active && !a.music.paused && a.audio.Some? then
      var (s, queue) := Pull(a.audio.value, a.queue);
      OnAudio(a, s).(queue := queue)
    else a
  }

  predicate OutputDrained(a: App) {
    a.queue == [] && (a.audio.None? || a.audio.value.music == [])
  }

  function TickFinish(a: App): App {
    if a.music.finishing && OutputDrained(a) then
      Say(a.(music := a.music.(finishing := false, active := false, paused := false, activeUrl := None, activeDirect := false)),
          [PlayerIdle, MusicIdle])
    else a
  }

  function TickPendingStop(a: App): App {
    if a.music.pendingStop && (a.audio.None? || FadeOutComplete(a.audio.value)) then
      Say(StopAll(a), [PlayerIdle, MusicIdle])
    else a
  }

  /** Everything a tick does before the frame is built. */
  function BeforeFrame(a: App, now: nat): App {
    TickPendingStop(TickFinish(TickPull(TickPendingStart(a, now))))
  }

  function Tick(a: App, now: nat, encodes: bool): (App, Frame) {
    var b := BeforeFrame(a, now);
    if b.audio.None? then (b, Nothing)
    else
      var (s, frame) := Next(b.audio.value, encodes);
      (OnAudio(b, s), frame)
  }

  // ---------------------------------------------------------------- what holds in every reachable state

  ghost predicate ChunksOf960(queue: seq<seq<sample>>) {
    forall k | 0 <= k < |queue| :: |queue[k]| == AUDIO_FRAME_SAMPLES
  }

  ghost predicate AudioBounded(s: State) {
    && |s.pcm| <= 720_000
    && |s.music| <= 96_000
    && |s.music| % 960 == 0
    && GainBounded(s.gain)
  }

  predicate GainBounded(g: Gain) {
    0.0 <= g.current <= 1.0 && 0.0 <= g.target <= 1.0
  }

  lemma {:induction false} GainStaysBounded(g: Gain, samples: nat)
    requires GainBounded(g)
    ensures GainBounded(GainAfter(g, samples))
  {
    if samples > 0 {
      GainStaysBounded(g, samples - 1);
    }
  }

  ghost predicate Inv(a: App) {
    var m := a.music;
    && (m.active ==> !m.paused)
    && (m.finishing ==> m.active || m.paused)
    && (m.pendingUrl.Some? ==> !m.active)
    && (m.pendingUrl.Some? <==> m.pendingReceivedAt.Some?)
    && (m.pendingWaitingForDrain ==> m.pendingDrainStartedAt.Some?)
    && ChunksOf960(a.queue)
    && (a.audio.Some? ==>
          && AudioBounded(a.audio.value)
          && (a.audio.value.suppressed ==> !m.active && m.pendingUrl.None?)
          && (m.pendingUrl.Some? ==> a.audio.value.music == []))
  }

  datatype Input =
    | OnCommand(c: Command)
    | OnEvent(e: Event)
    | OnTick(now: nat, encodes: bool)

  /** The pipeline sends chunks of 960 samples. */
  predicate WellFormed(i: Input) {
    i.OnEvent? && i.e.PipelineChunk? ==> |i.e.samples| == AUDIO_FRAME_SAMPLES
  }

  function Step(a: App, i: Input): App {
    match i
    case OnCommand(c) => Handle(a, c)
    case OnEvent(e) => HandleEvent(a, e)
    case OnTick(now, encodes) => Tick(a, now, encodes).0
  }

  function RunInputs(a: App, inputs: seq<Input>): App
    decreases |inputs|
  {
    if inputs == [] then a else RunInputs(Step(a, inputs[0]), inputs[1..])
  }

  lemma {:induction false} RunInputsSnoc(a: App, inputs: seq<Input>, i: Input)
    ensures RunInputs(a, inputs + [i]) == Step(RunInputs(a, inputs), i)
    decreases |inputs|
  {
    if inputs == [] {
      assert [i][1..] == [] && [] + [i] == [i];
    } else {
      assert (inputs + [i])[1..] == inputs[1..] + [i];
      RunInputsSnoc(Step(a, inputs[0]), inputs[1..], i);
    }
  }

  lemma {:induction false} StopAllKeepsInv(a: App)
    requires Inv(a)
    ensures Inv(StopAll(a))
  {
  }

  lemma {:induction false} PauseKeepsInv(a: App, alive: bool)
    requires Inv(a)
    ensures Inv(HandleMusicPause(a, alive))
  {
  }

  lemma {:induction false} BeforeResumeKeepsInv(a: App)
    requires Inv(a)
    ensures Inv(BeforeResume(a)) && BeforeResume(a).music.pendingUrl.None?
  {
  }

  lemma {:induction false} ResumeOutputKeepsInv(b: App, finishing: bool)
    requires Inv(b) && b.music.pendingUrl.None?
    ensures Inv(ResumeOutput(b, finishing))
  {
  }

  lemma {:induction false} RestartKeepsInv(b: App)
    requires Inv(b) && b.music.pendingUrl.None?
    ensures Inv(Restart(b))
  {
  }

  lemma {:induction false} ResumeKeepsInv(a: App, alive: bool, resumes: bool)
    requires Inv(a)
    ensures Inv(HandleMusicResume(a, alive, resumes))
  {
    BeforeResumeKeepsInv(a);
    ResumeOutputKeepsInv(BeforeResume(a), false);
    ResumeOutputKeepsInv(BeforeResume(a), true);
    RestartKeepsInv(BeforeResume(a));
  }

  lemma {:induction false} PlayKeepsInv(a: App, url: string, direct: bool, now: nat)
    requires Inv(a)
    ensures Inv(HandleMusicPlay(a, url, direct, now))
  {
  }

  lemma {:induction false} HandleKeepsInv(a: App, c: Command)
    requires Inv(a)
    ensures Inv(Handle(a, c))
  {
    match c
    case Audio(samples, now) =>
    case StopPlayback => StopAllKeepsInv(a);
    case StopTtsPlayback =>
    case MusicPlay(url, direct, now) => PlayKeepsInv(a, url, direct, now);
    case MusicStop => StopAllKeepsInv(a);
    case MusicPause(alive) => PauseKeepsInv(a, alive);
    case MusicResume(alive, resumes) => ResumeKeepsInv(a, alive, resumes);
    case MusicSetGain(target, fadeMs) =>
  }

  lemma {:induction false} EventKeepsInv(a: App, e: Event)
    requires Inv(a) && WellFormed(OnEvent(e))
    ensures Inv(HandleEvent(a, e))
  {
  }

  lemma {:induction false} PullKeeps(s: State, queue: seq<seq<sample>>)
    requires AudioBounded(s) && ChunksOf960(queue)
    ensures var (s', queue') := Pull(s, queue);
            && AudioBounded(s') && ChunksOf960(queue')
            && s'.suppressed == s.suppressed && s'.pcm == s.pcm
            && s'.music + Flatten(queue') == s.music + Flatten(queue)
            && |s'.music| >= |s.music|
            && (queue != [] ==> s'.music != [])
            && (queue' == [] || |s'.music| > 96_000 - 960)
    decreases |queue|
  {
    if queue != [] && CanAcceptMusicChunk(s) {
      PullKeeps(PushMusicPcm(s, queue[0]), queue[1..]);
      Assoc(s.music, queue[0], Flatten(queue[1..]));
    }
  }

  lemma {:induction false} PullKeepsGain(s: State, queue: seq<seq<sample>>)
    ensures Pull(s, queue).0.gain == s.gain
    decreases |queue|
  {
    if queue != [] && CanAcceptMusicChunk(s) {
      PullKeepsGain(PushMusicPcm(s, queue[0]), queue[1..]);
    }
  }

  function Flatten(queue: seq<seq<sample>>): seq<sample> {
    if queue == [] then [] else queue[0] + Flatten(queue[1..])
  }

  lemma {:induction false} NextKeepsBounds(s: State, encodes: bool)
    requires AudioBounded(s)
    ensures var s' := Next(s, encodes).0; AudioBounded(s') && s'.suppressed == s.suppressed && |s'.music| <= |s.music|
  {
    TickConserves(s, encodes);
    TickGain(s, encodes);
    GainStaysBounded(s.gain, AUDIO_FRAME_SAMPLES);
  }

  /** The envelope moves on with every music frame and stands still without. */
  lemma {:induction false} TickGain(s: State, encodes: bool)
    ensures Next(s, encodes).0.gain == if HasMusic(s) then GainAfter(s.gain, AUDIO_FRAME_SAMPLES) else s.gain
  {
    GateKeeps(s);
    if HasMusic(s) { MusicNeverWaits(s); }
  }

  lemma {:induction false} CommitKeepsInv(a: App)
    requires Inv(a) && a.music.pendingUrl.Some?
    ensures Inv(CommitStart(a))
  {
  }

  lemma {:induction false} PendingStartKeepsInv(a: App, now: nat)
    requires Inv(a)
    ensures Inv(TickPendingStart(a, now))
  {
    if a.music.pendingUrl.Some? {
      var b := a.(music := MarkDrain(a.music, now));
      assert Inv(b);
      CommitKeepsInv(b);
    }
  }

  lemma {:induction false} PullKeepsInv(a: App)
    requires Inv(a)
    ensures Inv(TickPull(a))
  {
    if a.audio.Some? { PullKeeps(a.audio.value, a.queue); }
  }

  lemma {:induction false} FinishKeepsInv(a: App)
    requires Inv(a)
    ensures Inv(TickFinish(a)) && Inv(TickPendingStop(a))
  {
    StopAllKeepsInv(a);
  }

  lemma {:induction false} TickKeepsInv(a: App, now: nat, encodes: bool)
    requires Inv(a)
    ensures Inv(BeforeFrame(a, now)) && Inv(Tick(a, now, encodes).0)
  {
    PendingStartKeepsInv(a, now);
    PullKeepsInv(TickPendingStart(a, now));
    FinishKeepsInv(TickPull(TickPendingStart(a, now)));
    FinishKeepsInv(TickFinish(TickPull(TickPendingStart(a, now))));
    FrameKeepsInv(BeforeFrame(a, now), encodes);
  }

  lemma {:induction false} FrameKeepsInv(a: App, encodes: bool)
    requires Inv(a)
    ensures a.audio.Some? ==> Inv(OnAudio(a, Next(a.audio.value, encodes).0))
  {
    if a.audio.Some? { NextKeepsBounds(a.audio.value, encodes); }
  }

  /** In every run of commands, pipeline and connection events and ticks: suppressed output means not active
      and no start pending, active means not paused, finishing means active or paused, a pending start
      always has its timestamp, and both buffers keep their bounds. */
  lemma {:induction false} ReachableInv(a: App, inputs: seq<Input>)
    requires Inv(a) && forall k | 0 <= k < |inputs| :: WellFormed(inputs[k])
    ensures Inv(RunInputs(a, inputs))
    decreases |inputs|
  {
    if inputs != [] {
      match inputs[0] {
        case OnCommand(c) => HandleKeepsInv(a, c);
        case OnEvent(e) => EventKeepsInv(a, e);
        case OnTick(now, encodes) => TickKeepsInv(a, now, encodes);
      }
      ReachableInv(Step(a, inputs[0]), inputs[1..]);
    }
  }

  lemma {:induction false} StartInv()
    ensures Inv(START)
  {
  }
}
