/** When a pending start is committed (`tick_pending_music_start` of `src/playback_supervisor.rs`): not before
    its announcement had its chance, and never not at all. */
module PendingStart {
  import opened Bytes
  import opened AudioSend
  import opened Playback

  /** Inputs that neither replace nor cancel a pending start. */
  predicate Undisturbing(i: Input) {
    match i
    case OnCommand(c) => c.Audio? || c.StopTtsPlayback? || c.MusicSetGain?
    case OnEvent(e) => e.PipelineChunk? || e.Connected? || e.ConnectionReplaced?
    case OnTick(_, _) => true
  }

  /** The start asked for at `t0` waits, or has been committed once. */
  ghost predicate WaitsOrPlays(a: App, url: string, direct: bool, t0: nat, log: seq<Message>) {
    && Inv(a) && !a.music.pendingStop && !a.music.finishing
    && a.music.activeUrl == Some(url) && a.music.activeDirect == direct
    && (if a.music.pendingUrl.Some?
        then a.music.pendingUrl == Some(url) && a.music.pendingDirect == direct && a.music.pendingReceivedAt == Some(t0) && a.log == log
        else a.music.active && a.log == log + [PlayerPlaying])
  }

  lemma {:induction false} WaitsStart(a: App, url: string, direct: bool, t0: nat, log: seq<Message>, now: nat)
    requires WaitsOrPlays(a, url, direct, t0, log)
    ensures WaitsOrPlays(TickPendingStart(a, now), url, direct, t0, log)
    ensures now > t0 + 15_000 ==> TickPendingStart(a, now).music.active
  {
    PendingStartKeepsInv(a, now);
  }

  /** Pulling, finishing, stopping and playing do not touch the start. */
  lemma {:induction false} RestOfTick(a: App, now: nat, encodes: bool)
    requires var s := TickPendingStart(a, now); !s.music.finishing && !s.music.pendingStop
    ensures var (s, a') := (TickPendingStart(a, now), Tick(a, now, encodes).0); a'.music == s.music && a'.log == s.log
  {
    assert BeforeFrame(a, now) == TickPull(TickPendingStart(a, now));
  }

  lemma {:induction false} WaitsTick(a: App, url: string, direct: bool, t0: nat, log: seq<Message>, now: nat, encodes: bool)
    requires WaitsOrPlays(a, url, direct, t0, log)
    ensures WaitsOrPlays(Tick(a, now, encodes).0, url, direct, t0, log)
    ensures now > t0 + 15_000 ==> Tick(a, now, encodes).0.music.active
  {
    TickKeepsInv(a, now, encodes);
    WaitsStart(a, url, direct, t0, log, now);
    RestOfTick(a, now, encodes);
  }

  lemma {:induction false} WaitsStep(a: App, url: string, direct: bool, t0: nat, log: seq<Message>, i: Input)
    requires WaitsOrPlays(a, url, direct, t0, log) && Undisturbing(i) && WellFormed(i)
    ensures WaitsOrPlays(Step(a, i), url, direct, t0, log)
  {
    match i
    case OnCommand(c) => HandleKeepsInv(a, c);
    case OnEvent(e) => EventKeepsInv(a, e);
    case OnTick(now, encodes) => WaitsTick(a, url, direct, t0, log, now, encodes);
  }

  lemma {:induction false} WaitsRun(a: App, url: string, direct: bool, t0: nat, log: seq<Message>, inputs: seq<Input>)
    requires WaitsOrPlays(a, url, direct, t0, log)
    requires forall k | 0 <= k < |inputs| :: Undisturbing(inputs[k]) && WellFormed(inputs[k])
    ensures WaitsOrPlays(RunInputs(a, inputs), url, direct, t0, log)
    decreases |inputs|
  {
    if inputs != [] {
      WaitsStep(a, url, direct, t0, log, inputs[0]);
      WaitsRun(Step(a, inputs[0]), url, direct, t0, log, inputs[1..]);
    }
  }

  /** Whatever speech, chunks, gain changes, reconnections and ticks follow a MusicPlay, the first tick more
      than fifteen seconds later finds the music started, and it is announced exactly once. */
  lemma {:induction false} PendingStartCommits(a: App, url: string, direct: bool, t0: nat, inputs: seq<Input>, now: nat, encodes: bool)
    requires Inv(a) && url != "" && now > t0 + 15_000
    requires forall k | 0 <= k < |inputs| :: Undisturbing(inputs[k]) && WellFormed(inputs[k])
    ensures var b := Tick(RunInputs(Handle(a, MusicPlay(url, direct, t0)), inputs), now, encodes).0;
            b.music.active && b.music.activeUrl == Some(url) && b.music.activeDirect == direct && b.log == a.log + [PlayerPlaying]
  {
    PlayStartsWaiting(a, url, direct, t0);
    var p := Handle(a, MusicPlay(url, direct, t0));
    WaitsRun(p, url, direct, t0, a.log, inputs);
    WaitsTick(RunInputs(p, inputs), url, direct, t0, a.log, now, encodes);
  }

  // ---------------------------------------------------------------- exactly when it is committed

  /** The time of the last Audio command. */
  function LastAudio(inputs: seq<Input>): Option<nat>
    decreases |inputs|
  {
    if inputs == [] then None
    else
      match inputs[|inputs| - 1]
      case OnCommand(Audio(_, now)) => Some(now)
      case _ => LastAudio(inputs[..|inputs| - 1])
  }

  /** The first tick more than 500 ms after the then last Audio command. */
  function QuietSince(inputs: seq<Input>): Option<nat>
    decreases |inputs|, 0
  {
    if inputs == [] then None
    else
      match inputs[|inputs| - 1]
      case OnTick(now, _) => QuietAt(inputs[..|inputs| - 1], now)
      case _ => QuietSince(inputs[..|inputs| - 1])
  }

  /** The same with a tick at `now` after the inputs. */
  function QuietAt(inputs: seq<Input>, now: nat): Option<nat>
    decreases |inputs|, 1
  {
    if QuietSince(inputs).Some? then QuietSince(inputs)
    else if LastAudio(inputs).Some? && now > LastAudio(inputs).value + 500 then Some(now)
    else None
  }

  /** A tick at `now` after these inputs commits a start asked for at `t0`. */
  predicate Due(inputs: seq<Input>, now: nat, t0: nat, speechEmpty: bool) {
    || now > t0 + 15_000
    || (LastAudio(inputs).None? && now > t0 + 5_000)
    || (QuietAt(inputs, now).Some? && (speechEmpty || now > QuietAt(inputs, now).value + 5_000))
  }

  predicate SpeechEmpty(a: App) {
    a.audio.None? || a.audio.value.pcm == []
  }

  /** The pending start knows what the inputs say. */
  ghost predicate Tracked(m: Music, inputs: seq<Input>, t0: nat) {
    m.pendingUrl.Some? ==>
      && m.pendingReceivedAt == Some(t0)
      && m.pendingLastAudioAt == LastAudio(inputs)
      && (m.pendingAudioSeen <==> LastAudio(inputs).Some?)
      && m.pendingDrainStartedAt == QuietSince(inputs)
      && (m.pendingWaitingForDrain <==> QuietSince(inputs).Some?)
      && (QuietSince(inputs).Some? ==> LastAudio(inputs).Some?)
  }

  lemma {:induction false} LastInput(inputs: seq<Input>, i: Input)
    ensures LastAudio(inputs + [i]) == match i case OnCommand(Audio(_, now)) => Some(now) case _ => LastAudio(inputs)
    ensures QuietSince(inputs + [i]) == match i case OnTick(now, _) => QuietAt(inputs, now) case _ => QuietSince(inputs)
  {
    assert (inputs + [i])[..|inputs|] == inputs;
  }

  lemma {:induction false} DueIsDue(b: App, inputs: seq<Input>, t0: nat, now: nat)
    requires Inv(b) && Tracked(b.music, inputs, t0) && b.music.pendingUrl.Some?
    ensures var m := MarkDrain(b.music, now);
            && (StartDue(m, b.audio, now) <==> Due(inputs, now, t0, SpeechEmpty(b)))
            && (!Due(inputs, now, t0, SpeechEmpty(b)) ==>
                  && m.pendingDrainStartedAt == QuietAt(inputs, now)
                  && (m.pendingWaitingForDrain <==> QuietAt(inputs, now).Some?))
  {
  }

  lemma {:induction false} TrackedStart(b: App, inputs: seq<Input>, t0: nat, now: nat, encodes: bool)
    requires Inv(b) && Tracked(b.music, inputs, t0) && b.music.pendingUrl.Some?
    ensures var m := TickPendingStart(b, now).music;
            && Tracked(m, inputs + [OnTick(now, encodes)], t0)
            && (m.active <==> Due(inputs, now, t0, SpeechEmpty(b)))
            && (m.active <==> m.pendingUrl.None?)
  {
    LastInput(inputs, OnTick(now, encodes));
    DueIsDue(b, inputs, t0, now);
  }

  lemma {:induction false} TrackedTick(b: App, inputs: seq<Input>, t0: nat, now: nat, encodes: bool)
    requires Inv(b) && !b.music.pendingStop && !b.music.finishing && Tracked(b.music, inputs, t0) && b.music.pendingUrl.Some?
    ensures var m := Tick(b, now, encodes).0.music;
            && Tracked(m, inputs + [OnTick(now, encodes)], t0)
            && (m.active <==> Due(inputs, now, t0, SpeechEmpty(b)))
            && (m.active <==> m.pendingUrl.None?)
  {
    TrackedStart(b, inputs, t0, now, encodes);
    RestOfTick(b, now, encodes);
  }

  lemma {:induction false} TrackedStep(b: App, inputs: seq<Input>, url: string, direct: bool, t0: nat, log: seq<Message>, i: Input)
    requires WaitsOrPlays(b, url, direct, t0, log) && Tracked(b.music, inputs, t0) && Undisturbing(i) && WellFormed(i)
    ensures Tracked(Step(b, i).music, inputs + [i], t0)
    ensures Step(b, i).music.active <==> b.music.active || (i.OnTick? && Due(inputs, i.now, t0, SpeechEmpty(b)))
  {
    WaitsStep(b, url, direct, t0, log, i);
    LastInput(inputs, i);
    if b.music.pendingUrl.Some? {
      match i
      case OnTick(now, encodes) => TrackedTick(b, inputs, t0, now, encodes);
      case _ =>
    } else if i.OnTick? {
      RestOfTick(b, i.now, i.encodes);
    }
  }

  /** Input number `k` is a tick that is due. */
  ghost predicate DueAt(p: App, inputs: seq<Input>, k: nat, t0: nat)
    requires k < |inputs|
  {
    inputs[k].OnTick? && Due(inputs[..k], inputs[k].now, t0, SpeechEmpty(RunInputs(p, inputs[..k])))
  }

  ghost predicate SomeDue(p: App, inputs: seq<Input>, t0: nat) {
    exists k: nat :: k < |inputs| && DueAt(p, inputs, k, t0)
  }

  lemma {:induction false} SomeDueSnoc(p: App, inputs: seq<Input>, i: Input, t0: nat)
    ensures SomeDue(p, inputs + [i], t0) <==>
            SomeDue(p, inputs, t0) || (i.OnTick? && Due(inputs, i.now, t0, SpeechEmpty(RunInputs(p, inputs))))
  {
    var all := inputs + [i];
    assert all[..|inputs|] == inputs;
    assert forall k: nat | k < |inputs| :: all[..k] == inputs[..k] && all[k] == inputs[k];
    if k: nat :| k < |inputs| && DueAt(p, inputs, k, t0) { assert DueAt(p, all, k, t0); }
    if k: nat :| k < |all| && DueAt(p, all, k, t0) { assert k < |inputs| ==> DueAt(p, inputs, k, t0); }
    assert DueAt(p, all, |inputs|, t0) <==> i.OnTick? && Due(inputs, i.now, t0, SpeechEmpty(RunInputs(p, inputs)));
  }

  lemma {:induction false} StartRun(p: App, url: string, direct: bool, t0: nat, log: seq<Message>, inputs: seq<Input>)
    requires WaitsOrPlays(p, url, direct, t0, log) && Tracked(p.music, [], t0) && !p.music.active
    requires forall k | 0 <= k < |inputs| :: Undisturbing(inputs[k]) && WellFormed(inputs[k])
    ensures Tracked(RunInputs(p, inputs).music, inputs, t0)
    ensures RunInputs(p, inputs).music.active <==> SomeDue(p, inputs, t0)
    decreases |inputs|
  {
    if inputs != [] {
      var n := |inputs| - 1;
      var init, i := inputs[..n], inputs[n];
      assert inputs == init + [i];
      StartRun(p, url, direct, t0, log, init);
      WaitsRun(p, url, direct, t0, log, init);
      TrackedStep(RunInputs(p, init), init, url, direct, t0, log, i);
      RunInputsSnoc(p, init, i);
      SomeDueSnoc(p, init, i, t0);
    }
  }

  lemma {:induction false} PlayStartsWaiting(a: App, url: string, direct: bool, t0: nat)
    requires Inv(a) && url != ""
    ensures var p := Handle(a, MusicPlay(url, direct, t0)); WaitsOrPlays(p, url, direct, t0, a.log) && Tracked(p.music, [], t0) && !p.music.active
  {
    PlayKeepsInv(a, url, direct, t0);
  }

  /** From the inputs alone and whether the speech buffer is empty: after a MusicPlay, the track has started
      if and only if some tick so far was due, so it starts on the first such tick and on no earlier one. */
  lemma {:induction false} StartsExactlyWhenDue(a: App, url: string, direct: bool, t0: nat, inputs: seq<Input>)
    requires Inv(a) && url != ""
    requires forall k | 0 <= k < |inputs| :: Undisturbing(inputs[k]) && WellFormed(inputs[k])
    ensures var p := Handle(a, MusicPlay(url, direct, t0));
            RunInputs(p, inputs).music.active <==> SomeDue(p, inputs, t0)
  {
    PlayStartsWaiting(a, url, direct, t0);
    StartRun(Handle(a, MusicPlay(url, direct, t0)), url, direct, t0, a.log, inputs);
  }

  lemma {:induction false} NoAudioYet(inputs: seq<Input>)
    requires forall k | 0 <= k < |inputs| :: !(inputs[k].OnCommand? && inputs[k].c.Audio?)
    ensures LastAudio(inputs) == None && QuietSince(inputs) == None
    decreases |inputs|
  {
    if inputs != [] { NoAudioYet(inputs[..|inputs| - 1]); }
  }

  /** A track without an announcement waits for one: no tick within five seconds starts it. */
  lemma {:induction false} UnannouncedStartWaits(a: App, url: string, direct: bool, t0: nat, inputs: seq<Input>)
    requires Inv(a) && url != ""
    requires forall k | 0 <= k < |inputs| :: Undisturbing(inputs[k]) && WellFormed(inputs[k])
    requires forall k | 0 <= k < |inputs| :: !(inputs[k].OnCommand? && inputs[k].c.Audio?)
    requires forall k | 0 <= k < |inputs| && inputs[k].OnTick? :: inputs[k].now <= t0 + 5_000
    ensures !RunInputs(Handle(a, MusicPlay(url, direct, t0)), inputs).music.active
  {
    var p := Handle(a, MusicPlay(url, direct, t0));
    StartsExactlyWhenDue(a, url, direct, t0, inputs);
    forall k: nat | k < |inputs| ensures !DueAt(p, inputs, k, t0) {
      NoAudioYet(inputs[..k]);
    }
  }

  /** An announced track does not start over its announcement: while speech is buffered, no tick starts it
      before fifteen seconds, or five seconds of waiting for the buffer, are over. */
  lemma {:induction false} AnnouncementIsHeardOut(a: App, url: string, direct: bool, t0: nat, inputs: seq<Input>, now: nat, encodes: bool)
    requires Inv(a) && url != ""
    requires forall k | 0 <= k < |inputs| :: Undisturbing(inputs[k]) && WellFormed(inputs[k])
    requires var b := RunInputs(Handle(a, MusicPlay(url, direct, t0)), inputs); !b.music.active && !SpeechEmpty(b)
    requires LastAudio(inputs).Some? && now <= t0 + 15_000
    requires QuietSince(inputs).Some? ==> now <= QuietSince(inputs).value + 5_000
    ensures !Tick(RunInputs(Handle(a, MusicPlay(url, direct, t0)), inputs), now, encodes).0.music.active
  {
    var p := Handle(a, MusicPlay(url, direct, t0));
    PlayStartsWaiting(a, url, direct, t0);
    StartRun(p, url, direct, t0, a.log, inputs);
    WaitsRun(p, url, direct, t0, a.log, inputs);
    NotDueWaits(RunInputs(p, inputs), inputs, url, direct, t0, a.log, now, encodes);
  }

  lemma {:induction false} NotDueWaits(b: App, inputs: seq<Input>, url: string, direct: bool, t0: nat, log: seq<Message>, now: nat, encodes: bool)
    requires WaitsOrPlays(b, url, direct, t0, log) && Tracked(b.music, inputs, t0) && !b.music.active
    requires !Due(inputs, now, t0, SpeechEmpty(b))
    ensures !Tick(b, now, encodes).0.music.active
  {
    TrackedStep(b, inputs, url, direct, t0, log, OnTick(now, encodes));
  }

  lemma {:induction false} CommitStartsFade(b: App, now: nat)
    requires b.music.pendingUrl.Some? && !b.music.active && TickPendingStart(b, now).music.active && b.audio.Some?
    ensures var c := TickPendingStart(b, now); c.audio.Some? && c.audio.value.gain == NewGain(0.0, 1.0, 1500)
  {
  }

  lemma {:induction false} PullAndPlayGain(c: App, encodes: bool)
    requires c.audio.Some?
    ensures var d := TickPull(c);
            && d.audio.Some?
            && Next(d.audio.value, encodes).0.gain in {c.audio.value.gain, GainAfter(c.audio.value.gain, 960)}
  {
    PullKeepsGain(c.audio.value, c.queue);
    TickGain(TickPull(c).audio.value, encodes);
  }

  /** A started track fades in from nothing over 1500 ms; its first frame may go out on the same tick. */
  lemma {:induction false} StartFadesIn(b: App, now: nat, encodes: bool)
    requires !b.music.active && !b.music.pendingStop && !b.music.finishing && b.music.pendingUrl.Some? && b.audio.Some?
    requires TickPendingStart(b, now).music.active
    ensures var b' := Tick(b, now, encodes).0;
            && b'.audio.Some?
            && b'.audio.value.gain in {NewGain(0.0, 1.0, 1500), GainAfter(NewGain(0.0, 1.0, 1500), 960)}
  {
    var c := TickPendingStart(b, now);
    CommitStartsFade(b, now);
    assert BeforeFrame(b, now) == TickPull(c);
    PullAndPlayGain(c, encodes);
  }
}
