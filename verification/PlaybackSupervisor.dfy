/** The objects behind the music state machine: `MusicState` (`src/music.rs`) and the supervisor that owns
    it, the pipeline's queue and the outbound audio state (`src/playback_supervisor.rs`). Every method is
    proved against the function of the same step in `Playback`. */
module PlaybackSupervisor {
  import opened Bytes
  import opened AudioSend
  import opened AudioPipeline
  import P = Playback

  class MusicState {
    var hasPlayer: bool
    var active: bool
    var paused: bool
    var finishing: bool
    var activeUrl: Option<string>
    var activeDirect: bool
    var pendingUrl: Option<string>
    var pendingReceivedAt: Option<nat>
    var pendingAudioSeen: bool
    var pendingLastAudioAt: Option<nat>
    var pendingWaitingForDrain: bool
    var pendingDrainStartedAt: Option<nat>
    var pendingDirect: bool
    var pendingStop: bool

    function AsMusic(): P.Music
      reads this
    {
      P.Music(hasPlayer, active, paused, finishing, activeUrl, activeDirect, pendingUrl, pendingReceivedAt,
              pendingAudioSeen, pendingLastAudioAt, pendingWaitingForDrain, pendingDrainStartedAt, pendingDirect, pendingStop)
    }

    constructor ()
      ensures AsMusic() == P.NO_MUSIC
    {
      hasPlayer, active, paused, finishing := false, false, false, false;
      activeUrl, activeDirect := None, false;
      pendingUrl, pendingReceivedAt, pendingAudioSeen, pendingLastAudioAt := None, None, false, None;
      pendingWaitingForDrain, pendingDrainStartedAt, pendingDirect, pendingStop := false, None, false, false;
    }

    method StopPlayer()
      modifies this`hasPlayer
      ensures !hasPlayer
    {
      hasPlayer := false;
    }

    method ClearPendingStart()
      modifies this
      ensures AsMusic() == P.ClearPendingStart(old(AsMusic()))
    {
      pendingUrl := None;
      pendingReceivedAt := None;
      pendingAudioSeen := false;
      pendingLastAudioAt := None;
      pendingWaitingForDrain := false;
      pendingDrainStartedAt := None;
      pendingDirect := false;
    }

    method Reset()
      modifies this
      ensures AsMusic() == P.ResetMusic(old(AsMusic()))
    {
      StopPlayer();
      active := false;
      paused := false;
      finishing := false;
      activeUrl := None;
      activeDirect := false;
      pendingStop := false;
      ClearPendingStart();
    }

    method Deactivate()
      modifies this
      ensures AsMusic() == old(AsMusic()).(hasPlayer := false, active := false, paused := false, finishing := false, pendingStop := false)
    {
      StopPlayer();
      active := false;
      paused := false;
      finishing := false;
      pendingStop := false;
    }

    method QueuePendingStart(url: string, direct: bool, now: nat)
      modifies this
      ensures AsMusic() == P.QueuePendingStart(old(AsMusic()), url, direct, now)
    {
      Deactivate();
      ClearPendingStart();
      activeUrl := Some(url);
      activeDirect := direct;
      pendingUrl := Some(url);
      pendingReceivedAt := Some(now);
      pendingDirect := direct;
    }

    /** The pending start becomes the active track. */
    method CommitPendingStart()
      modifies this
      ensures AsMusic() == P.ClearPendingStart(old(AsMusic())).(finishing := false, activeUrl := old(pendingUrl),
                             activeDirect := old(pendingDirect), active := true, paused := false)
    {
      var url, direct := pendingUrl, pendingDirect;
      ClearPendingStart();
      finishing := false;
      activeUrl := url;
      activeDirect := direct;
      active := true;
      paused := false;
    }

    method EndTrack()
      modifies this
      ensures AsMusic() == old(AsMusic()).(finishing := false, active := false, paused := false, activeUrl := None, activeDirect := false)
    {
      finishing := false;
      active := false;
      paused := false;
      activeUrl := None;
      activeDirect := false;
    }

    method PlayerEnded()
      modifies this
      ensures AsMusic() == P.PlayerEnded(old(AsMusic()))
    {
      StopPlayer();
      paused := false;
      finishing := active;
      pendingStop := false;
      ClearPendingStart();
    }

    method DropPending()
      modifies this
      ensures AsMusic() == P.ClearPendingStart(old(AsMusic())).(pendingStop := false)
    {
      ClearPendingStart();
      pendingStop := false;
    }

    method SetPaused(isFinishing: bool)
      modifies this
      ensures AsMusic() == old(AsMusic()).(paused := true, active := false, finishing := isFinishing)
    {
      paused := true;
      active := false;
      finishing := isFinishing;
    }

    method SetPlaying(isFinishing: bool)
      modifies this
      ensures AsMusic() == old(AsMusic()).(paused := false, active := true, finishing := isFinishing)
    {
      paused := false;
      active := true;
      finishing := isFinishing;
    }
  }

  class Supervisor {
    const music: MusicState
    var musicPcmRx: seq<seq<sample>>
    var audio: AudioSendState?
    var log: seq<P.Message>

    function AudioState(): Option<State>
      reads this, audio
    {
      if audio == null then None else Some(audio.AsState())
    }

    function AsApp(): P.App
      reads this, music, audio
    {
      P.App(music.AsMusic(), musicPcmRx, AudioState(), log)
    }

    constructor ()
      ensures AsApp() == P.START && fresh(music)
    {
      music := new MusicState();
      musicPcmRx := [];
      audio := null;
      log := [];
    }

    method Say(messages: seq<P.Message>)
      modifies this`log
      ensures log == old(log) + messages
    {
      log := log + messages;
    }

    method ClearAudioSendBuffer()
      modifies audio
      ensures AsApp() == P.ClearAudio(old(AsApp()))
    {
      if audio != null {
        audio.Clear();
      }
    }

    method StopAll()
      modifies this, music, audio
      ensures audio == old(audio)
      ensures AsApp() == P.StopAll(old(AsApp()))
    {
      music.Reset();
      musicPcmRx := [];
      ClearAudioSendBuffer();
    }

    method StartMusicPipeline(clearOutput: bool)
      modifies this, music, audio
      ensures audio == old(audio)
      ensures AsApp() == P.StartPipeline(old(AsApp()), clearOutput)
    {
      music.StopPlayer();
      musicPcmRx := [];
      if clearOutput {
        ClearAudioSendBuffer();
      }
      music.hasPlayer := true;
    }

    method BufferedOutput() returns (r: bool)
      ensures r == P.BufferedOutput(AsApp())
    {
      r := musicPcmRx != [] || (audio != null && |audio.musicBuffer| > 0);
    }

    method HandleAudio(samples: seq<sample>, now: nat)
      modifies music, audio
      ensures AsApp() == P.HandleAudio(old(AsApp()), samples, now)
    {
      if music.pendingUrl.Some? {
        music.pendingAudioSeen := true;
        music.pendingLastAudioAt := Some(now);
      }
      if music.active && !music.paused {
        var isDucked := audio != null && audio.musicGain.target < 1.0;
        if !isDucked {
          return;
        }
      }
      if samples != [] {
        if audio != null {
          audio.PushPcm(samples);
        }
      }
    }

    method HandleMusicPlay(url: string, direct: bool, now: nat)
      modifies this, music, audio
      ensures AsApp() == P.HandleMusicPlay(old(AsApp()), url, direct, now)
    {
      if url == "" {
        Say([P.MusicError]);
        return;
      }
      if audio != null {
        audio.ClearMusic();
      }
      music.QueuePendingStart(url, direct, now);
      StartMusicPipeline(false);
    }

    method HandleMusicStop()
      modifies this, music, audio
      ensures AsApp() == P.HandleMusicStop(old(AsApp()))
    {
      if music.hasPlayer && music.active {
        if audio != null {
          audio.SetMusicGain(0.0, 300);
        }
        music.pendingStop := true;
      } else {
        StopAll();
        Say([P.PlayerIdle, P.MusicIdle]);
      }
    }

    method HandleMusicPause(alive: bool)
      modifies this, music, audio
      ensures AsApp() == P.HandleMusicPause(old(AsApp()), alive)
    {
      DropPending();
      var wasFinishing := music.finishing;
      var playerAlive := music.hasPlayer && alive;
      var buffered := BufferedOutput();
      if playerAlive || music.active || wasFinishing {
        PauseOutput(wasFinishing || (!playerAlive && buffered));
      }
    }

    method PauseOutput(finishing: bool)
      modifies this, music, audio
      ensures AsApp() == P.PauseOutput(old(AsApp()), finishing)
    {
      music.SetPaused(finishing);
      if audio != null {
        audio.Suppress();
      }
      Say([P.PlayerPaused]);
    }

    method ResumeOutput(finishing: bool)
      modifies this, music, audio
      ensures AsApp() == P.ResumeOutput(old(AsApp()), finishing)
    {
      if audio != null {
        audio.Resume();
      }
      music.SetPlaying(finishing);
      Say([P.PlayerPlaying]);
    }

    method HandleMusicResume(alive: bool, resumes: bool)
      modifies this, music, audio
      ensures AsApp() == P.HandleMusicResume(old(AsApp()), alive, resumes)
    {
      DropPendingAndFinishing();
      var playerAlive := music.hasPlayer && alive;
      var buffered := BufferedOutput();
      if playerAlive && resumes {
        ResumeOutput(false);
      } else if !playerAlive && buffered {
        ResumeOutput(true);
      } else if music.activeUrl.Some? {
        Restart();
      }
    }

    method DropPending()
      modifies music
      ensures AsApp() == P.DropPending(old(AsApp()))
    {
      music.DropPending();
    }

    method DropPendingAndFinishing()
      modifies music
      ensures AsApp() == P.BeforeResume(old(AsApp()))
    {
      DropPending();
      music.finishing := false;
    }

    method Restart()
      modifies this, music, audio
      ensures AsApp() == P.Restart(old(AsApp()))
    {
      StartMusicPipeline(true);
      music.SetPlaying(music.finishing);
      Say([P.PlayerPlaying]);
    }

    method HandlePlaybackCommand(c: P.Command)
      modifies this, music, audio
      ensures AsApp() == P.Handle(old(AsApp()), c)
    {
      match c {
        case Audio(samples, now) => HandleAudio(samples, now);
        case StopPlayback =>
          StopAll();
          Say([P.PlayerIdle]);
        case StopTtsPlayback =>
          if audio != null { audio.ClearTts(); }
        case MusicPlay(url, direct, now) => HandleMusicPlay(url, direct, now);
        case MusicStop => HandleMusicStop();
        case MusicPause(alive) => HandleMusicPause(alive);
        case MusicResume(alive, resumes) => HandleMusicResume(alive, resumes);
        case MusicSetGain(target, fadeMs) =>
          var clamped := if target < 0.0 then 0.0 else if target > 1.0 then 1.0 else target;
          if audio != null { audio.SetMusicGain(clamped, fadeMs); }
      }
    }

    method HandlePipelineIdle()
      modifies this, music
      ensures AsApp() == P.HandlePipelineIdle(old(AsApp()))
    {
      music.PlayerEnded();
      if !music.finishing {
        music.activeUrl := None;
        music.activeDirect := false;
        Say([P.PlayerIdle, P.MusicIdle]);
      }
    }

    method HandleEvent(e: P.Event)
      modifies this, music, audio
      ensures AsApp() == P.HandleEvent(old(AsApp()), e)
    {
      match e {
        case PipelineIdle => HandlePipelineIdle();
        case PipelineError =>
          music.Reset();
          musicPcmRx := [];
          Say([P.MusicError, P.PlayerIdle]);
        case PipelineChunk(samples) => musicPcmRx := musicPcmRx + [samples];
        case Connected => audio := new AudioSendState();
        case Disconnected =>
          music.Reset();
          musicPcmRx := [];
          audio := null;
        case ConnectionReplaced => audio := null;
      }
    }

    /** Whether the pending start is due; notes when the wait for the speech buffer begins. */
    method EvaluatePendingStart(now: nat) returns (start: bool)
      modifies music
      ensures music.AsMusic() == P.MarkDrain(old(music.AsMusic()), now)
      ensures start == P.StartDue(music.AsMusic(), AudioState(), now)
    {
      start := false;
      if music.pendingReceivedAt.Some? {
        var elapsed := P.Elapsed(now, music.pendingReceivedAt);
        if elapsed > 15_000 {
          start := true;
        } else if !music.pendingAudioSeen {
          if elapsed > 5_000 {
            start := true;
          }
        } else {
          var lastAudioAt := if music.pendingLastAudioAt.Some? then music.pendingLastAudioAt else music.pendingReceivedAt;
          var gap := P.Elapsed(now, lastAudioAt);
          if !music.pendingWaitingForDrain && gap > 500 {
            music.pendingWaitingForDrain := true;
            music.pendingDrainStartedAt := Some(now);
          }
          if music.pendingWaitingForDrain {
            var audioBufferEmpty := audio == null || audio.pcmBuffer == [];
            if audioBufferEmpty {
              start := true;
            } else if P.Elapsed(now, music.pendingDrainStartedAt) > 5_000 {
              start := true;
            }
          }
        }
      } else {
        start := true;
      }
    }

    method TickPendingMusicStart(now: nat)
      modifies this, music, audio
      ensures audio == old(audio)
      ensures AsApp() == P.TickPendingStart(old(AsApp()), now)
    {
      if music.pendingUrl.None? {
        return;
      }
      var startMusic := EvaluatePendingStart(now);
      if startMusic {
        music.CommitPendingStart();
        if audio != null {
          audio.BeginMusicFadeIn(1500);
        }
        Say([P.PlayerPlaying]);
      }
    }

    method PullMusic()
      modifies this`musicPcmRx, audio
      ensures AsApp() == P.TickPull(old(AsApp()))
    {
      if music.active && !music.paused && audio != null {
        var state := audio;
        ghost var all := P.Pull(state.AsState(), musicPcmRx);
        var canAccept := |state.musicBuffer| + AUDIO_FRAME_SAMPLES <= MAX_MUSIC_BUFFER_SAMPLES;
        while canAccept && musicPcmRx != []
          invariant audio == old(audio) && audio == state
          invariant P.Pull(state.AsState(), musicPcmRx) == all
          invariant canAccept == CanAcceptMusicChunk(state.AsState())
          decreases |musicPcmRx|
        {
          var chunk := musicPcmRx[0];
          musicPcmRx := musicPcmRx[1..];
          state.PushMusicPcm(chunk);
          canAccept := |state.musicBuffer| + AUDIO_FRAME_SAMPLES <= MAX_MUSIC_BUFFER_SAMPLES;
        }
      }
    }

    method FinishIfDrained()
      modifies this`log, music
      ensures AsApp() == P.TickFinish(old(AsApp()))
    {
      var drained := musicPcmRx == [] && (audio == null || |audio.musicBuffer| == 0);
      if music.finishing && drained {
        music.EndTrack();
        Say([P.PlayerIdle, P.MusicIdle]);
      }
    }

    method TickPendingStop()
      modifies this, music, audio
      ensures audio == old(audio)
      ensures AsApp() == P.TickPendingStop(old(AsApp()))
    {
      if !music.pendingStop {
        return;
      }
      var fadeDone := audio == null || (GainComplete(audio.musicGain) && audio.musicGain.target < 0.001);
      if fadeDone {
        StopAll();
        Say([P.PlayerIdle, P.MusicIdle]);
      }
    }

    method OnAudioTick(now: nat, encodes: bool) returns (frame: Frame)
      modifies this, music, audio
      ensures (AsApp(), frame) == P.Tick(old(AsApp()), now, encodes)
    {
      TickPendingMusicStart(now);
      PullMusic();
      FinishIfDrained();
      TickPendingStop();
      assert AsApp() == P.BeforeFrame(old(AsApp()), now);
      if audio == null {
        return Nothing;
      }
      frame := audio.NextOpusFrame(encodes);
    }
  }
}
