# clankvox: a verified model of the media path

clankvox sends and receives Discord voice and video. This project models the parts in which bytes,
sequence numbers, buffers and protocol states must fit together, and proves what the code decides:

- **H.264 over RTP, both directions.** An Annex-B access unit is split, packetized (whole or as FU-A
  fragments), encrypted, and on the other side parsed, decrypted, stripped and depacketized (single NAL
  unit, STAP-A, FU-A; RFC 6184 sections 5.6, 5.7.1, 5.8). Proved: under any loss, duplication and
  reordering only suffixes of one sent unit come out (`H264Channel`); with no loss every unit of a stream
  of any length comes out whole exactly when it can be carried and fits, and after any packets whatsoever a
  unit that then arrives in order does too (`H264Lossless`, `EndToEnd`). Aggregation packets and the cached
  parameter sets are said from the received bytes (`StapA`, `ParameterSets`), codec switches from the packets
  that arrive (`CodecRuns`).
- **The Annex-B scanners** under it: four loops that must agree, and splitting and rewriting as inverses
  (`AnnexB`, `AnnexBRewrite`).
- **VP8 over RTP** (RFC 7741 section 4.2): a frame comes out complete or not at all (`Vp8Channel`).
- **The packet layer**: RTP header, CSRC list, extension, padding and the boundary of the associated data
  (RFC 3550 section 5.1, RFC 8285 section 4.2), around any lawful AEAD (`Rtp`, `Transport`).
- **The access unit splitter** that is fed arbitrary pipe reads (`AccessUnits`).
- **The playout engine**: speech and music buffers, prebuffer gate, mixing, trailing silence
  (`AudioSend`, `AudioPipeline`), what a frame sounds like (`GainEnvelope`, `Mixing`), the music state machine
  above it (`Playback`, `PlaybackSupervisor`), and what it does when the pipeline ends, a stop is asked for, a
  start is pending, music is paused or speech comes in (`MusicDrain`, `MusicStop`, `StopOnTicks`, `PendingStart`,
  `PauseResume`, `SpeechAdmission`, `PlaybackEnds`).
- **Audio sequence recovery**: what is dropped, concealed and recovered (`CaptureSequence`).
- **DAVE transition bookkeeping** with the MLS session outside (`Dave`).

## How it is built

Code that updates state is modelled by classes with the source's fields and by methods with the source's
branches and loops. Each method is proved equal to a step function on a state datatype, and whole runs are
reasoned about with the step functions; the objects live in `Depacketizers`, `VideoDepacketizers`,
`AudioPipeline` and `PlaybackSupervisor`, or beside their steps. Sequence numbers, nonces, timestamps and
stall counters wrap or saturate as in the source. A channel is any finite list of deliveries of sent packets:
loss, repetition and order are arbitrary.

Points where the model follows the code although something else might be expected:

- The repository's README and `docs/go-live.md` say that cached parameter sets are prepended to every frame;
  the code prepends only those the frame lacks (`src/h264.rs:127-161`). The model does what the code does.
- A zero byte between two start codes is a NAL header of type 0 for the type scanners and no NAL unit for
  the splitter (`AnnexB.TypeZeroDisagreement`). For types 1..31 they agree on every byte string.
- Rewriting with three-byte inner start codes is neither loss-free nor idempotent: a NAL unit that ends in a
  zero byte loses it (`ThreeByteRewriteLoses`). `RewriteKeepsNalsIff` and `RewriteIdempotentIff` give the
  exact condition.
- `send_h264_frame` sends a NAL unit of type 0 or 24..31 with at most 1096 bytes as it is, and the receiver
  does not read it as one NAL unit (`UncarriedUnitIsLost`). `UnitArrivesIff` and `StreamRoundTrip` say
  exactly which units arrive.
- Music is heard to its end after the pipeline's end only under a condition: `AllIsHeardIff` gives it. A track
  whose start is still pending, or that is paused with its output suppressed, is reported idle at once and
  ticks play none of it (`IdleWhilePendingDropsTrack`, `IdleWhileSuppressedDropsTrack`, `PausedTailIsDropped`).
- A requested stop is a fade that only music frames advance and that a later gain command replaces.
  `StopCompletesIff` says when it is announced, `PipelineEndReplacesStop` what the end of the pipeline makes
  of it. After a gain command (`GainChangeUndoesStop`) or with a stalled pipeline (`StopNeverCompletes`) it
  may never be announced.
- A prepared DAVE downgrade can lose its timeout (`DowngradeForgotten`); `DowngradeHonouredIff` says exactly
  when it is honoured. A commit or welcome under its id replaces it (`CommitReplacesDowngrade`).
- `send_h264_frame` skips empty NAL units, but the splitter never yields one, so the model has no such branch.

## Model

The theorems come first, then the steps and the methods they are about.

| member | source | states |
|---|---|---|
| H264Channel.ChannelSafety | src/voice_conn.rs:268-301 | under any loss, duplication and reordering without sequence aliasing, every emitted frame is the four-byte join of a non-empty suffix of the NAL units of the one unit whose last packet just arrived, and its keyframe flag is right |
| H264Channel.ChannelSafetyAnySchedule | src/voice_conn.rs:268-301 | no aliasing assumption is needed when timestamps differ and no unit has more than 65536 packets |
| Channel.DistinguishableUnaliased | src/voice_conn.rs:276-290 | why: such frames cannot be confused by the 16-bit gap detector, however far apart they were sent |
| EndToEnd.WireSafety | src/voice_conn.rs:2359-2417 | the safety of the channel on the wire: any list of the sender's datagrams, through decryption and parsing, yields only suffixes of one access unit |
| H264Lossless.UnitArrivesIff | src/h264.rs:18-109 | received in order, a unit is emitted with its last packet, whole and with nothing before it, if and only if each NAL unit is longer than 1096 bytes or of type 1..23 and the join has at most 8 MiB |
| H264Lossless.UncarriedUnitIsLost | src/voice_conn.rs:918-941 | a failing input: the access unit [[24]] does not arrive |
| H264Lossless.RunWeight | src/h264.rs:18-109 | only the last packet of a unit can complete a frame, and no reading of the packets (STAP-A and FU-A headers smuggled in as payload included) yields more than was sent |
| H264Lossless.LosslessUnit | src/voice_conn.rs:268-301 | the same behind the gap detector, with the state it leaves for the next unit |
| H264Lossless.LiveAfterAnyRun | src/voice_conn.rs:268-301 | liveness: after any packets whatsoever, a unit that arrives in order after a gap, under another timestamp or with nothing in progress is emitted whole if and only if it can be carried and fits |
| StapA.AggregationAppends | src/h264.rs:39-61 | an aggregation packet, said from its bytes: whole units behind big-endian lengths append exactly their four-byte join if it fits 8 MiB, a single stray byte is ignored, and a zero or overlong length or lack of room drops the partial frame; which units reach the parameter set cache |
| StapA.AggregationEmits | src/h264.rs:92-106 | a marked aggregation packet alone in its frame comes out as the join of its units, truly flagged, if it fits |
| StapA.BadUnitResets | src/h264.rs:45-48 | a unit with length zero or beyond the payload's end: the partial frame is gone and nothing is emitted |
| StapA.UnitsAndRest | src/h264.rs:39-61 | every payload is whole units and such a rest, so nothing is left unsaid |
| H264Depacketizer.OtherTypesAreIgnored | src/h264.rs:87-89 | packets of types 0, 25..27 and 29..31 complete no frame, marked or not, and leave the partial frame of their timestamp |
| H264Depacketizer.EmptyAndStrayAreIgnored | src/h264.rs:24-26 | an empty payload changes nothing; a fragment cut short or without a begun NAL unit leaves the partial frame of its timestamp |
| EndToEnd.AccessUnitRoundTrip | src/voice_conn.rs:893-993 | packetize, protect, parse, decrypt, strip, depacketize: nothing before the last packet, then exactly the four-byte rewrite, if and only if every NAL unit can be carried and the rewrite has at most 8 MiB; any counters |
| EndToEnd.StreamRoundTrip | src/voice_conn.rs:893-993 | the same for every frame of a stream of any length from a new receiver, so one frame that does not arrive spoils no other |
| EndToEnd.WireIsTransparent | src/voice_conn.rs:2359-2417 | a whole wire run equals pushing the packets directly |
| EndToEnd.WirePacketReceived | src/voice_conn.rs:2359-2417 | what the sender puts on the wire is received as the same payload, marker, timestamp and 16-bit sequence |
| Transport.ReceiveInverts | src/voice_conn.rs:2359-2417 | for every CSRC count, extension length, padding 1..255 or none: the receive path recovers exactly the payload and fields; only an empty payload behind an extension is dropped |
| Transport.HeaderReadIff | src/rtp.rs:100-126 | a header is read exactly when it is complete, extension words included, with all its fields and its size |
| Transport.CutHeaderIsRefused | src/rtp.rs:100-126 | no proper beginning of a header is taken for one |
| Transport.PaddingCutExactly | src/rtp.rs:138-154 | padding is cut off if its count is possible, and only then |
| H264Sender.NoncesDiffer | src/transport_crypto.rs:44-66 | no nonce is used twice within 2^32 packets, whatever they carry |
| AccessUnits.ChunkIndependence | src/stream_publish.rs:338-384 | two ways of cutting the same stream into reads give the same units and the same leftover |
| AccessUnits.FlushGivesUnits | src/stream_publish.rs:117-141 | each unit begins with its only delimiter, and together they are the stream from its first delimiter on |
| AccessUnits.DrainExtend | src/stream_publish.rs:117-141 | draining a longer stream is draining its beginning and then the leftover, extended |
| AccessUnits.FirstAudIsFirst | src/stream_publish.rs:105-115 | no delimiter header lies before the one found, and none exists when None is returned |
| MusicDrain.MusicDrains | src/playback_supervisor.rs:245-264 | after the pipeline ends while active, tick k takes exactly the k-th 960 samples of buffer and queue and, when the encoder works, sends their mix with that tick's speech; MusicIdle is said once, on the tick after the last |
| MusicDrain.AllIsHeardIff | src/playback_supervisor.rs:245-264 | in every state of the invariant, all that is buffered and queued is heard after the pipeline's end if and only if the track is active, or the queue is empty and the buffer empty or not suppressed |
| MusicDrain.HeardAfterIdle | src/playback_supervisor.rs:245-264 | what is heard after the pipeline's end in every state, frame by frame, and when idle is said |
| MusicDrain.IdleWhilePendingDropsTrack | src/playback_supervisor.rs:245-264 | if the pipeline ends while its start is pending, idle is said at once and ticks play nothing of the track |
| MusicDrain.IdleWhileSuppressedDropsTrack | src/playback_supervisor.rs:245-264 | if it ends while the track is paused, idle is said at once and ticks play nothing of what is left |
| MusicDrain.PausedTailIsDropped | src/playback_supervisor.rs:130-166 | a failing input: a track paused with its last chunk in the queue |
| MusicStop.StopCompletesIff | src/playback_supervisor.rs:393-417 | whatever ticks, chunks, speech and gain commands follow MusicStop on a playing track, the stop is announced, once, on the first tick before which the fade in force, in closed form over the music frames played since it was set, has come to rest at no gain |
| StopOnTicks.StopOnTicksIff | src/playback_supervisor.rs:393-417 | if only ticks follow, it is announced if and only if the music at hand carries the fade: c * (15 - n) < 0.0015 after n frames, or n at least 15 |
| MusicStop.PipelineEndReplacesStop | src/playback_supervisor.rs:245-264 | if the pipeline ends before the announcement, the request is dropped: the remaining music plays to its end and idle is said on the tick after |
| MusicStop.GainChangeUndoesStop | src/playback_supervisor.rs:222-232 | after a gain command to 0.001 or more, no run of ticks, chunks and speech ever announces the stop, however much music is left |
| StopOnTicks.StopNeverCompletes | src/playback_supervisor.rs:107-129 | a failing input: a stalled pipeline at full gain, and a stop that no number of ticks announces |
| MusicStop.SilentIsComplete | src/audio_pipeline.rs:39-54 | after any number of music frames the per-sample envelope is at the closed form's level, for any fade, and is complete at no gain exactly when the closed form says so |
| PendingStart.PendingStartCommits | src/playback_supervisor.rs:305-389 | whatever speech, chunks, gain changes and reconnections follow a play command, a tick more than fifteen seconds later finds the track active, and it is announced exactly once |
| PendingStart.StartsExactlyWhenDue | src/playback_supervisor.rs:305-389 | from the inputs alone and whether the speech buffer is empty: the track starts on the first tick that is due and on no earlier one: more than 15000 ms after the play command; more than 5000 ms without an Audio command; or once a tick came more than 500 ms after the last Audio command, when the buffer is empty or 5000 ms after that tick |
| PendingStart.UnannouncedStartWaits | src/playback_supervisor.rs:318-322 | no tick within five seconds starts a track without an announcement |
| PendingStart.AnnouncementIsHeardOut | src/playback_supervisor.rs:323-349 | no announced track starts while its speech is buffered, before one of the two timeouts |
| PendingStart.StartFadesIn | src/playback_supervisor.rs:370-375 | a started track fades in from nothing over 1500 ms |
| PauseResume.PauseLosesNothing | src/playback_supervisor.rs:130-198 | pause, then ticks, chunks and speech, then a resume in place or of a tail: no music plays in between and none is lost; the next ticks play it from its first sample, the chunks that came in behind it |
| PauseResume.ResumeOutcome | src/playback_supervisor.rs:167-221 | a resume keeps queue, music and speech in place or as a tail, clears them exactly when neither applies and there is a URL, and changes nothing otherwise |
| PauseResume.TailPlaysOut | src/playback_supervisor.rs:194-204 | a resumed tail plays to its end and is reported idle once |
| PauseResume.PausedTrackEndsWithConnection | src/playback_supervisor.rs:130-166 | when a paused track counts as finishing, seen from the tick after its connection is lost |
| PauseResume.PauseAnnouncedIff | src/playback_supervisor.rs:141-165 | a pause is announced exactly when a player lives or a track plays or finishes |
| SpeechAdmission.SpeechOverMusicIffDucked | src/playback_supervisor.rs:28-54 | over runs: while music plays, speech is let in exactly when the last gain asked for is below full gain, as far as it fits, and ignored otherwise |
| SpeechAdmission.SpeechAloneIsLetIn | src/playback_supervisor.rs:18-61 | while no music plays every push is let in as far as it fits |
| PlaybackEnds.StopSilencesAll | src/playback_supervisor.rs:62-75 | after StopPlayback, or MusicStop when no music plays, ticks send nothing and it is reported once |
| PlaybackEnds.StopTtsSilencesSpeech | src/playback_supervisor.rs:76-83 | stopping speech drops all of it and no music |
| PlaybackEnds.ErrorEndsTrack | src/playback_supervisor.rs:265-273 | a failed pipeline ends its track: reported once, nothing more is pulled, what is buffered plays on |
| PlaybackEnds.PlayDropsOldTrack | src/playback_supervisor.rs:84-106 | a new track begins with none of the old one's music, speech is kept; an empty URL only reports an error |
| PlaybackEnds.ReconnectStartsEmpty | src/app_state.rs:233-240 | what a lost and a replaced connection keep |
| MusicStop.StopCompletesWithoutConnection | src/playback_supervisor.rs:393-417 | if the connection goes while a stop is pending, it completes on the next tick |
| Playback.ReachableInv | src/playback_supervisor.rs:62-221 | in every run of commands, events and ticks: suppressed output means not active and no pending start, active means not paused, finishing means active or paused, a pending start has its timestamp, the music buffer holds at most 96000 samples in whole frames and the speech buffer at most 720000 |
| Playback.PullKeeps | src/playback_supervisor.rs:467-477 | pulling chunks keeps the order and content of music, stays within the bound and never leaves the buffer empty while chunks wait |
| AudioSend.PlayoutConserves | src/audio_pipeline.rs:120-155 | in every run of pushes, ticks, suppressions and encoder failures, accepted samples are played samples followed by buffered ones, in order, for speech and music |
| AudioSend.TickConserves | src/audio_pipeline.rs:307-361 | a tick takes from the front and adds nothing; an encoded frame is the mix of exactly what it took |
| AudioSend.SpeechDrains | src/audio_pipeline.rs:256-395 | without playable music the speech buffer empties after exactly `DrainTicks` ticks, at most n/960 + 5, then five silence frames, then nothing with the gate armed again |
| AudioSend.DrainBoundIsTight | src/audio_pipeline.rs:256-395 | a one-sample utterance takes all of n/960 + 5 |
| AudioSend.MusicNeverWaits | src/audio_pipeline.rs:256-336 | playable music plays 960 samples whatever the state of the speech gate |
| AudioSend.PushOwesSilence | src/audio_pipeline.rs:120-155 | a push or a resume owes five silence frames even if its samples are taken back or too few to play |
| AudioSend.ClearedMusicOwesNone | src/audio_pipeline.rs:233-237 | after music is cleared, without speech, ticks send nothing |
| AudioSend.ClearedSpeechArmsGate | src/audio_pipeline.rs:214-231 | after speech is cleared the next short utterance waits as the first one did |
| AudioSend.PushHoldsTailAnew | src/audio_pipeline.rs:120-137 | speech that arrives while an underfilled frame is held lets it be held anew |
| Mixing.FullGainPlaysMusic | src/audio_pipeline.rs:33-37 | at full resting gain and without speech the frame is the 960 music samples |
| Mixing.SpeechAloneIsPadded | src/audio_pipeline.rs:329-353 | without music, or with music at rest at no gain, the frame is the speech filled up with zeros |
| Mixing.GainScalesMusic | src/audio_pipeline.rs:33-50 | anywhere in a fade each music sample goes out as the sample times the closed-form level without its fraction, of the same sign and no louder |
| Mixing.GainGrows | src/audio_pipeline.rs:33-37 | more gain is never less sound |
| Mixing.SpeechIsAdded | src/audio_pipeline.rs:329-353 | with speech over music each sample is the sum of what either alone would send, exact in range and cut off at its ends |
| Mixing.SpeechOverMusicNeverWaits | src/audio_pipeline.rs:307-323 | over playable music the next 960 speech samples, or what there is, play at once |
| GainEnvelope.FadeLine | src/audio_pipeline.rs:18-50 | the per-sample envelope is a straight line of 48 steps a millisecond that rests at its target |
| H264Depacketizer.PushKeepsValid | src/h264.rs:18-109 | from any valid state, any packet: the buffer stays within 8 MiB, the keyframe flag implies an IDR NAL unit in the buffer, the caches hold types 7 and 8, and an emitted frame is flagged exactly when it holds an IDR slice |
| H264Depacketizer.RunKeepsValid | src/h264.rs:18-109 | the same for every packet stream whatsoever |
| ParameterSets.CachedAreLatest | src/h264.rs:113-123 | after any run the cached sets are the latest complete NAL units of types 7 and 8, from packets of their own or aggregation units |
| ParameterSets.StreamHoldsLatest | src/voice_conn.rs:268-301 | the same behind the gap detector: no loss, repetition or reordering costs a parameter set |
| ParameterSets.EveryPayload | src/h264.rs:18-91 | every payload is a single NAL unit, an aggregation or other content, so the run theorem covers all of them |
| H264Depacketizer.PrependAfterAnyRun | src/h264.rs:113-185 | after any packet run and for any frame bytes: the result ends with the frame, shows types 7 and 8 whenever the frame or the cache had them, and a second call changes nothing |
| H264Depacketizer.PrependedNals | src/h264.rs:127-161 | for an assembled frame and clean caches, the NAL list of the result is the missing SPS, the missing PPS, then the frame's own list |
| AnnexB.ScannersAgree | src/h264.rs:164-294 | for every byte string and every type but 0: the type scan, membership in the collected types and "some split NAL unit has that type" are equivalent |
| AnnexB.TypeZeroAgreesIff | src/h264.rs:259-294 | for type 0, scanners and splitter agree if and only if the scanners see no such header or one of them does not itself begin a start code; the splitter sees exactly the latter |
| AnnexB.TypeZeroDisagreement | src/h264.rs:259-294 | a seven-byte frame on which the scanners and the splitter differ on type 0 |
| AnnexBRewrite.SplitJoin4 | src/h264.rs:280-326 | every list of NAL units without inner start codes is read back from its four-byte join |
| AnnexBRewrite.JoinSplit4 | src/h264.rs:280-326 | splitting yields non-empty NAL units without start codes, and split, join, split is split |
| AnnexBRewrite.RewriteKeepsNalsIff | src/h264.rs:296-326 | a rewrite keeps the NAL list if and only if the inner code has four bytes or no NAL unit but the last ends in zero |
| AnnexBRewrite.OneNalHasNoInnerCode | src/h264.rs:310-320 | the inner start code length does not matter to a frame of one NAL unit |
| AnnexBRewrite.RewriteIdempotentIff | src/h264.rs:296-326 | rewriting is idempotent under exactly that condition, and never grows a frame again |
| AnnexBRewrite.ThreeByteRewriteLoses | src/h264.rs:296-326 | a failing input: rewriting (4,3) takes the last byte of the parameter set [0x67, 0] |
| Vp8Channel.ChannelSafety | src/vp8.rs:12-104 | under any loss, duplication and reordering without aliasing, an emitted frame is byte for byte one sent frame and flagged a keyframe exactly when its first byte is even |
| Vp8Channel.FrameArrivesIff | src/vp8.rs:12-59 | received in order, a frame is emitted with its last packet, whole, if and only if it has at most 8 MiB |
| Vp8Depacketizer.DescriptorRoundTrip | src/vp8.rs:69-104 | every descriptor of RFC 7741 is skipped exactly, whatever follows |
| Vp8Depacketizer.DescriptorSound | src/vp8.rs:69-104 | whatever is accepted begins with such a descriptor of the reported length |
| Vp8Depacketizer.CutDescriptorIsRefused | src/vp8.rs:69-104 | no proper beginning of a descriptor is taken for one |
| Vp8Depacketizer.BodilessPacketsAreIgnored | src/vp8.rs:18-22 | a packet that ends within its descriptor or right behind it changes nothing |
| VideoStream.SsrcIsolation | src/voice_conn.rs:219-237 | for every interleaving of many streams with codec switches, one SSRC's outputs and state are those of its own packets alone |
| CodecRuns.CodecRunStartsFresh | src/voice_conn.rs:220-237 | from the first packet of a new SSRC or of another codec than the one before, as long as the codec stays, outputs and state are those of a new stream with these packets alone |
| CodecRuns.LastArrivalIsStored | src/voice_conn.rs:228-236 | in every run, what is stored for an SSRC has the codec and sequence number of its last packet |
| CaptureSequence.GaplessTimeline | src/capture_supervisor.rs:627-715 | with gaps of at most five and working decodes, the frames stand for every number from first to newest, once each and in order; late and repeated packets add nothing |
| CaptureSequence.PacketKinds | src/capture_supervisor.rs:627-666 | of up to five missing packets all but the last are concealed and the last is recovered; more are given up |
| CaptureSequence.TimelineOrdered | src/capture_supervisor.rs:555-715 | whatever is lost, late, repeated, unsubscribed or undecodable, the frames stand for strictly increasing numbers and the tracker never moves back |
| CaptureSequence.ClassificationUnwraps | src/capture_supervisor.rs:55-79 | within half the 16-bit range, the classification equals that of numbers that never wrap |
| Dave.DowngradeHonouredIff | src/dave.rs:509-535 | a downgrade that stays recorded is in force after the first poll three seconds after the last preparation if and only if version 0 is in force anyway or, among preparations of a downgrade and downgrades executed, a preparation came last |
| Dave.DowngradeHonoured | src/dave.rs:509-535 | in particular, it is honoured whatever came between if no downgrade happened meanwhile |
| Dave.PollWaits | src/dave.rs:509-513 | a poll less than three seconds after the last preparation of a downgrade changes nothing |
| Dave.DowngradeForgotten | src/dave.rs:390-418 | a failing input: once another downgrade was executed and undone, a recorded downgrade has no timer and no poll executes it |
| Dave.RunKept | src/dave.rs:365-535 | in every run id 0 is never left pending and no record is executed twice |
| Dave.StepAccounts | src/dave.rs:390-418 | the version changes only to the one recorded under the id just executed; OP23 is decided only for a non-zero id left pending; a timed-out poll leaves version 0 or no version-0 record |
| Dave.VersionWasAnnounced | src/dave.rs:365-432 | no run puts a version in force that was not in force or recorded before and that no OP21 announced |
| Dave.ConfirmedKeepsVersion | src/dave.rs:421-432 | executing what a successful commit or welcome recorded changes no version, whatever was recorded under that id before |
| Dave.CommitReplacesDowngrade | src/voice_conn.rs:1709-1722 | so a commit under the id of a prepared downgrade takes the downgrade's place |
| Dave.ReinitializationForgets | src/dave.rs:489-493 | a reinitialized session has nothing pending and no timer, and until the next OP21, OP29 or OP30 its version stays |
| Dave.RecoveryNamesLast | src/dave.rs:390-504 | in every run a recovery names the last transition that took effect, and the session counts as reinitializing exactly if none did since the last reinitialization |
| Dave.ReadyIff | src/voice_conn.rs:1479-1829 | OP23 goes out for an id exactly when the event confirms it, it is not 0 and it is pending afterwards |
| AnnexB.FindNextStartCode | src/h264.rs:217-229 | the result is the earliest start code at or after `from`, a three-byte code tested before a four-byte one; None exactly when there is none |
| AnnexB.HasIdrSlice | src/h264.rs:231-257 | true exactly when some byte of type 5 directly follows a start code, though the loop skips over what it reads |
| AnnexB.AnnexBContainsNalType | src/h264.rs:164-185 | the same for an arbitrary target type, with this loop's other stride and bound |
| AnnexB.CollectAnnexBNalTypes | src/h264.rs:259-278 | the list is the types of all bytes that follow a start code, in stream order, none twice or missing |
| AnnexB.SplitAnnexBNalus | src/h264.rs:280-294 | the two-search loop yields the recursively defined NAL list |
| AnnexBRewrite.RewriteStartCodes | src/h264.rs:296-326 | the loop yields the join of the split NAL units with the asked-for start codes, and None for no NAL unit or a length other than 3 and 4 that is used |
| Depacketizers.H264Depacketizer.Push | src/h264.rs:18-109 | one packet takes the object from state to state and yields the frame as `Push` specifies, including every early return |
| Depacketizers.H264Depacketizer.PushStap | src/h264.rs:43-64 | the aggregation loop, with its reset on a bad length and its stop when the bound is hit |
| Depacketizers.H264Depacketizer.PushUnit | src/h264.rs:51-60 | one aggregation unit: cached by type, keyframe noted, start code and bytes appended if they fit |
| Depacketizers.H264Depacketizer.Extend | src/h264.rs:200-207 | bytes are appended if they fit in 8 MiB, otherwise the partial frame is gone |
| Depacketizers.H264Depacketizer.PrependCachedParameterSets | src/h264.rs:127-161 | the missing cached parameter sets, each behind a four-byte code, then the frame |
| H264Packets.SlotsFromChained | src/voice_conn.rs:911-990 | the packets of a unit run through all its NAL units and fragments in order, and the marker is on the last packet and no other |
| H264Packets.PacketSizes | src/voice_conn.rs:915-957 | no packet carries more than 1096 bytes, smaller NAL units are not split, and all fragments but the last are full |
| H264Channel.FirstFragment | src/h264.rs:31-81 | a single packet or first fragment adds a start code and the NAL bytes so far, with the original header restored, exactly when they fit |
| H264Channel.LaterFragment | src/h264.rs:82-90 | a later fragment adds exactly its bytes, only inside a fragmented NAL unit and only if they fit |
| H264Channel.StepFromIdle | src/h264.rs:18-109 | what any packet of a unit can do to an empty state: nothing, or start holding a suffix |
| H264Channel.StepFromHolding | src/h264.rs:18-109 | the next packet extends the held run of NAL units by exactly its bytes, or the partial frame is dropped |
| H264Sender.VideoSender.SendH264Frame | src/voice_conn.rs:893-993 | the whole packet list, with headers, markers, wrapping counters and ciphertext; without an SSRC or a NAL unit nothing is sent and no counter moves; the next timestamp differs from this one |
| H264Sender.VideoSender.SendNal | src/voice_conn.rs:911-990 | one pass of the NAL loop sends exactly the packets of that NAL unit |
| H264Sender.VideoSender.SendFragments | src/voice_conn.rs:942-989 | the chunk loop sends every fragment once, in order, with the start and end bits on the first and last |
| H264Sender.VideoSender.SendPacket | src/voice_conn.rs:919-941 | one packet: header, extension prefix as associated data, sealed payload; sequence and nonce advance by one and wrap |
| H264Sender.FragmentPacket | src/voice_conn.rs:942-980 | the chunk arithmetic of one pass gives the FU-A packet of that slot |
| Rtp.BuildRtpHeader | src/rtp.rs:74-82 | the twelve bytes of an Opus header |
| Rtp.BuildVideoRtpHeader | src/rtp.rs:84-98 | the twelve bytes of a video header, extension bit and marker included |
| Rtp.ParseRtpHeader | src/rtp.rs:100-126 | fields and size for any CSRC count and extension; None exactly when a part is missing |
| Transport.TransportCrypto.Encrypt | src/transport_crypto.rs:44-66 | ciphertext and tag under the old nonce, then that nonce; the nonce counter wraps |
| Transport.TransportCrypto.Decrypt | src/transport_crypto.rs:75-96 | the associated data ends after the CSRC list and the four-byte extension prefix; short packets fail |
| Transport.DecryptInverts | src/transport_crypto.rs:84-96 | cutting and opening what `encrypt` produced gives the message back |
| Transport.LawfulIsPossible | src/transport_crypto.rs:44-96 | the law assumed of the cipher can be met |
| Transport.ClearFields | src/rtp.rs:100-126 | every header field of a well-formed packet is read back, and the decrypt boundary is the end of the clear part |
| Transport.StripInverts | src/rtp.rs:138-179 | removing padding and extension body from what was encrypted leaves the payload |
| VideoDepacketizers.VideoDepacketizerState.Push | src/voice_conn.rs:268-296 | the gap detector before the codec's depacketizer |
| VideoDepacketizers.VideoDepacketizers.Push | src/voice_conn.rs:220-237 | the map entry of the packet's SSRC, new or replaced on a codec switch, takes the packet; all other entries keep their state |
| VideoDepacketizers.VideoDepacketizers.PrependCachedH264Params | src/voice_conn.rs:242-248 | the parameter sets of the SSRC's own depacketizer, and none for an unknown SSRC |
| Vp8Depacketizer.ParsePayloadDescriptor | src/vp8.rs:69-104 | the moving cursor gives the descriptor length and the start flag |
| Depacketizers.Vp8Depacketizer.Push | src/vp8.rs:12-59 | one packet, with every early return and the reset at 8 MiB |
| AccessUnits.FindNextAudStart | src/stream_publish.rs:105-115 | the search loop over start codes gives the first access unit delimiter |
| AccessUnits.UnitBuffer.CutLoop | src/stream_publish.rs:125-134 | the loop takes exactly the units closed by a later delimiter and never meets a delimiter at 0 |
| AccessUnits.UnitBuffer.DrainUnits | src/stream_publish.rs:117-141 | what a drain gives out and leaves, with and without flushing |
| AccessUnits.UnitBuffer.ReadAll | src/stream_publish.rs:333-384 | the reader loop over any chunks gives what one flushing drain of the whole stream gives |
| AudioPipeline.AudioSendState.PushPcm | src/audio_pipeline.rs:120-137 | speech is appended, what exceeds 720000 samples is dropped from the new end |
| AudioPipeline.AudioSendState.PassGate | src/audio_pipeline.rs:256-305 | the prebuffer gate and its stall counter |
| AudioPipeline.AudioSendState.MixMusic | src/audio_pipeline.rs:332-336 | the music loop fills the mixing array with gained samples and advances the envelope once per sample |
| AudioPipeline.AudioSendState.MixFrame | src/audio_pipeline.rs:329-353 | the frame sent to the encoder is the clamped sum of music and speech, sample by sample |
| AudioPipeline.AudioSendState.NextOpusFrame | src/audio_pipeline.rs:256-395 | one tick: gate, stall count, mixing or silence, and the encoder's failure |
| PlaybackSupervisor.Supervisor.HandlePlaybackCommand | src/playback_supervisor.rs:16-233 | every command takes supervisor, music state and audio state to the specified state and messages |
| PlaybackSupervisor.Supervisor.HandleMusicPause | src/playback_supervisor.rs:130-166 | pausing with a dead player and buffered output keeps the tail to be finished |
| PlaybackSupervisor.Supervisor.HandleMusicResume | src/playback_supervisor.rs:167-221 | resume in place, resume the buffered tail, or restart the track |
| PlaybackSupervisor.Supervisor.HandleEvent | src/playback_supervisor.rs:243-273 | the pipeline's end, error and chunks, and the connection coming and going |
| PlaybackSupervisor.Supervisor.EvaluatePendingStart | src/playback_supervisor.rs:310-353 | when a pending start is due, and when the wait for the speech buffer begins |
| PlaybackSupervisor.Supervisor.PullMusic | src/playback_supervisor.rs:467-477 | the loop moves chunks while one more fits |
| PlaybackSupervisor.Supervisor.OnAudioTick | src/playback_supervisor.rs:460-517 | one tick in the source's order: pending start, pull, finish, stop, frame |
| CaptureSequence.CaptureState.OpusReceived | src/capture_supervisor.rs:555-715 | which frames one packet hands on, in order, and where the tracker stands; other SSRCs are untouched |
| Dave.DaveManager.PrepareTransition | src/dave.rs:365-387 | record, execute at once for id 0, start the timer for version 0 |
| Dave.DaveManager.ExecuteTransition | src/dave.rs:390-418 | the record is spent and its version takes force; an unknown id changes nothing |
| Dave.DaveManager.StorePendingTransition | src/dave.rs:421-432 | id 0 ends the reinitialization and is not recorded; another id is recorded with the present version |
| Dave.DaveManager.Reinit | src/dave.rs:465-504 | a session at version 0 is not reinitialized; otherwise records and timer go |
| Dave.DaveManager.MaybeAutoExecuteDowngrade | src/dave.rs:509-535 | any version-0 record may be the one found; without one the timer is cleared |
| Dave.OnPrepareTransition | src/voice_conn.rs:1479-1502 | OP21 and whether OP23 answers it |
| Dave.OnPrepareEpoch | src/voice_conn.rs:1535-1590 | OP24 reinitializes for a version above 0 and does nothing for version 0 |
| Dave.OnCommit | src/voice_conn.rs:1691-1750 | OP29: recorded and confirmed on success, reinitialized on failure |
| Dave.OnWelcome | src/voice_conn.rs:1752-1829 | OP30: a welcome to a group already joined counts only while its transition is pending |

## Left out

- Sockets, WebSocket and UDP tasks, select loops, stdin/stdout messages, JSON, base64 and logging.
- The ciphers: any pair of functions that invert each other on equal nonce and associated data; encryption is taken to succeed.
- The MLS session, per-packet DAVE encryption and decryption, passthrough mode, the decrypt-failure counters and the `ready` flag; creation of a DAVE manager by OP24 when there is none.
- The Opus codec: an answer per call says whether it succeeded. Resampling and the conversion of decoded audio are not modelled, and a converted frame is taken to be non-empty.
- OpenH264, JPEG encoding, RTCP feedback, media sink wants, speaking and subscription state.
- Threads and the bounds of channels: the music queue is a sequence, and a pipeline is a source of 960-sample chunks followed by one event. Player processes, pids and shell commands are outside; whether a player is alive and can be resumed is a parameter.
- The best-effort parts of the UDP loop: alternate payloads, retry variants, byte dumps and user remapping.
- Telemetry of the playback tick: buffer depth and speech playback reports, gain-reached and playback-armed messages, first-PCM times.
- The Destroy command, reconnect backoff, stream publish commands, visualizer and browser-frame publishing.
- URL trimming: the model's URL is already trimmed.
- AccessUnits.UnitBuffer.ReadAll: does not model the stop flag, a failing frame channel or a read error, each of which ends the reader early.
- AudioPipeline.AudioSendState.MixFrame: the gain envelope is over reals, not 32-bit floats, so exact gained values can differ by rounding.
- AudioPipeline.AudioSendState.MixMusic: the same; rounding of 32-bit gain is not captured.
- Mixing.GainScalesMusic: levels are over reals; the rounding of a 32-bit product is not captured.
- GainEnvelope.FadeLine: the loop is over reals too.
- AudioPipeline.AudioSendState.SetMusicGain: the notified gain and the returned reached value are left out, since they only feed a report.
- AudioPipeline.AudioSendState.BeginMusicFadeIn: the notified gain is left out for the same reason.
- MusicStop.StopCompletesIff: fades are over reals, the accumulated rounding of 32-bit floats is not modelled; play, pause, resume, a second stop and connection changes while the stop is pending are not among the inputs.
- StopOnTicks.StopOnTicksIff: the threshold is over reals too.
- MusicStop.SilentIsComplete: the closed form is compared with the loop over reals.
- H264Sender.VideoSender.SendH264Frame: the packets are returned instead of sent, and a failing encryption or send, which ends the frame early, is not modelled; concurrent callers sharing the counters are not modelled.
- H264Sender.VideoSender.SendPacket: encryption and sending always succeed here.
- Transport.TransportCrypto.Encrypt: the cipher's error result is taken never to happen.
- Dave.DaveManager.MaybeAutoExecuteDowngrade: time is a parameter in milliseconds.
- Dave.DaveManager.PrepareTransition: the passthrough mode of the media session is outside.
- Dave.DaveManager.ExecuteTransition: the passthrough mode of the media session is outside.
- Dave.DaveManager.Reinit: the ready flag, the failure count and the new key package are left out.
- Dave.OnExecuteTransition: the event that reports a ready session is left out, as is the flag it depends on.
- Dave.OnPrepareEpoch: creating a manager when there is none is left out.
- Dave.OnCommit: the event that reports a ready session is left out.
- Dave.OnWelcome: the event that reports a ready session is left out.
- CaptureSequence.CaptureState.OpusReceived: an unknown SSRC, the own user and a decoder that cannot be created count as not subscribed; speaking state is left out.
- H264Channel.ChannelSafety: concerns units whose NAL units can all be carried; a NAL unit of type 24 or 28 that fits one packet is read by the receiver as an aggregation or a fragment.
- H264Channel.ChannelSafetyAnySchedule: concerns carried units under pairwise different timestamps; a run in which a 32-bit timestamp comes round again needs the condition of ChannelSafety.
- EndToEnd.WireSafety: the same units as ChannelSafety.
- PendingStart.StartsExactlyWhenDue: other commands that end or replace a pending start (stop, pause, resume, another play) and the pipeline's end are not among its inputs.
- SpeechAdmission.SpeechOverMusicIffDucked: the runs before the push hold ticks, chunks, speech and gain commands; base64 decoding and resampling of the samples are outside.
- PlaybackSupervisor.Supervisor.HandlePlaybackCommand: Destroy and the reports about buffered speech are left out.
- PlaybackSupervisor.Supervisor.HandleAudio: the report about buffered speech is left out.
- PlaybackSupervisor.Supervisor.HandleEvent: the first-PCM event, which only sets a time for the log, is left out.
- PlaybackSupervisor.Supervisor.OnAudioTick: gain-reached messages and buffer depth reports are left out.
- Rtp.ParseRtpHeader: the padding and extension strippers beside it are functions on byte sequences, so truncation in place is not captured.
