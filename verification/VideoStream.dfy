/** The receive side per video stream (`VideoDepacketizerState` and `VideoDepacketizers` of
    `src/voice_conn.rs`): a 16-bit gap detector before the codec's depacketizer, one state per SSRC. */
module VideoStream {
  import opened Bytes
  import H264 = H264Depacketizer
  import Vp8 = Vp8Depacketizer

  type Frame = H264.Frame
  type Packet = H264.Packet

  datatype Codec = H264Codec | Vp8Codec

  datatype State = State(codec: Codec, lastSequence: Option<u16>, h264: H264.State, vp8: Vp8.State)

  function Fresh(codec: Codec): State {
    State(codec, None, H264.INITIAL, Vp8.INITIAL)
  }

  function NextSequence(sequence: u16): u16 {
    (sequence + 1) % 0x1_0000
  }

  function ClearPartialFrame(s: State): State {
    s.(h264 := H264.Reset(s.h264), vp8 := Vp8.INITIAL)
  }

  function Accept(s: State, sequence: u16): State {
    var kept := if s.lastSequence.Some? && NextSequence(s.lastSequence.value) != sequence then ClearPartialFrame(s) else s;
    kept.(lastSequence := Some(sequence))
  }

  ghost function Push(s: State, sequence: u16, p: Packet): (State, Option<Frame>) {
    var s1 := Accept(s, sequence);
    match s1.codec
    case H264Codec =>
      var (h264, out) := H264.Push(s1.h264, p.timestamp, p.marker, p.payload);
      (s1.(h264 := h264), out)
    case Vp8Codec =>
      var (vp8, out) := Vp8.Push(s1.vp8, p.timestamp, p.marker, p.payload);
      (s1.(vp8 := vp8), out)
  }

  datatype Numbered = Numbered(sequence: u16, packet: Packet)

  /** Any packets, in the order in which they arrive. */
  ghost function PushAll(s: State, arrivals: seq<Numbered>): (State, seq<Option<Frame>>)
    decreases |arrivals|
  {
    if arrivals == [] then (s, [])
    else
      var (s1, out) := Push(s, arrivals[0].sequence, arrivals[0].packet);
      var (s2, outs) := PushAll(s1, arrivals[1..]);
      (s2, [out] + outs)
  }

  /** Nothing until the last packet, then `last`. */
  ghost predicate OnlyAtEnd(outs: seq<Option<Frame>>, last: Option<Frame>) {
    outs != [] && outs[|outs| - 1] == last && forall i | 0 <= i < |outs| - 1 :: outs[i] == None
  }

  // ---------------------------------------------------------------- many streams

  datatype Arrival = Arrival(ssrc: u32, codec: Codec, sequence: u16, packet: Packet)

  /** The state the arrival meets: the stream's own, or a fresh one for a new SSRC or a codec switch. */
  function Meets(streams: map<u32, State>, ssrc: u32, codec: Codec): State {
    if ssrc in streams && streams[ssrc].codec == codec then streams[ssrc] else Fresh(codec)
  }

  ghost function PushTo(streams: map<u32, State>, a: Arrival): (map<u32, State>, Option<Frame>) {
    var (s, out) := Push(Meets(streams, a.ssrc, a.codec), a.sequence, a.packet);
    (streams[a.ssrc := s], out)
  }

  ghost function RunMany(streams: map<u32, State>, arrivals: seq<Arrival>): (map<u32, State>, seq<Option<Frame>>)
    decreases |arrivals|
  {
    if arrivals == [] then (streams, [])
    else
      var (m1, out) := PushTo(streams, arrivals[0]);
      var (m2, outs) := RunMany(m1, arrivals[1..]);
      (m2, [out] + outs)
  }

  function Own(arrivals: seq<Arrival>, ssrc: u32): seq<Arrival> {
    if arrivals == [] then []
    else (if arrivals[0].ssrc == ssrc then [arrivals[0]] else []) + Own(arrivals[1..], ssrc)
  }

  /** The outputs at the positions where packets of `ssrc` arrived. */
  function OwnOutputs(arrivals: seq<Arrival>, outs: seq<Option<Frame>>, ssrc: u32): seq<Option<Frame>>
    requires |outs| >= |arrivals|
  {
    if arrivals == [] then []
    else (if arrivals[0].ssrc == ssrc then [outs[0]] else []) + OwnOutputs(arrivals[1..], outs[1..], ssrc)
  }

  ghost predicate SameStream(m1: map<u32, State>, m2: map<u32, State>, ssrc: u32) {
    (ssrc in m1 <==> ssrc in m2) && (ssrc in m1 ==> m1[ssrc] == m2[ssrc])
  }

  lemma {:induction false} RunManyLength(streams: map<u32, State>, arrivals: seq<Arrival>)
    ensures |RunMany(streams, arrivals).1| == |arrivals|
    decreases |arrivals|
  {
    if arrivals != [] {
      RunManyLength(PushTo(streams, arrivals[0]).0, arrivals[1..]);
    }
  }

  /** However the packets of other streams interleave, and whatever codec switches happen, a stream
      gets the outputs and the state that its own packets alone would give it. */
  lemma {:induction false} SsrcIsolation(m1: map<u32, State>, m2: map<u32, State>, arrivals: seq<Arrival>, ssrc: u32)
    requires SameStream(m1, m2, ssrc)
    ensures |RunMany(m1, arrivals).1| == |arrivals|
    ensures OwnOutputs(arrivals, RunMany(m1, arrivals).1, ssrc) == RunMany(m2, Own(arrivals, ssrc)).1
    ensures SameStream(RunMany(m1, arrivals).0, RunMany(m2, Own(arrivals, ssrc)).0, ssrc)
    decreases |arrivals|
  {
    RunManyLength(m1, arrivals);
    if arrivals != [] {
      var a := arrivals[0];
      var (n1, out) := PushTo(m1, a);
      var outs := RunMany(n1, arrivals[1..]).1;
      assert ([out] + outs)[1..] == outs;
      if a.ssrc == ssrc {
        var own := Own(arrivals, ssrc);
        assert own[1..] == Own(arrivals[1..], ssrc);
        SsrcIsolation(n1, PushTo(m2, a).0, arrivals[1..], ssrc);
      } else {
        SsrcIsolation(n1, m2, arrivals[1..], ssrc);
        assert Own(arrivals, ssrc) == Own(arrivals[1..], ssrc);
        assert OwnOutputs(arrivals, [out] + outs, ssrc) == OwnOutputs(arrivals[1..], outs, ssrc);
      }
    }
  }
}
