/** The H.264 RTP depacketizer of `src/h264.rs`: single NAL unit packets, STAP-A and FU-A (RFC 6184
    sections 5.6, 5.7.1 and 5.8) are assembled into Annex-B frames.

    `Push` on the state datatype is the specification that the object in `Depacketizers` is proved
    against. What every packet stream keeps is proved about `Push` and `Run`. */
module H264Depacketizer {
  import opened Bytes
  import opened AnnexB
  import opened AnnexBRewrite

  const MAX_VIDEO_FRAME_BYTES: nat := 8 * 1024 * 1024
  const START_CODE: seq<byte> := [0, 0, 0, 1]

  datatype Frame = Frame(bytes: seq<byte>, keyframe: bool)

  datatype State = State(
    timestamp: Option<u32>,
    buffer: seq<byte>,
    keyframe: bool,
    inFu: bool,
    sps: Option<seq<byte>>,
    pps: Option<seq<byte>>)

  const INITIAL := State(None, [], false, false, None, None)

  // ---------------------------------------------------------------- specification

  function Reset(s: State): State {
    s.(timestamp := None, buffer := [], keyframe := false, inFu := false)
  }

  function PrepareTimestamp(s: State, timestamp: u32): State {
    if s.timestamp == Some(timestamp) then s
    else s.(timestamp := Some(timestamp), buffer := [], keyframe := false, inFu := false)
  }

  function CacheParameterSet(s: State, nalType: int, nalu: seq<byte>): State {
    if nalType == 7 then s.(sps := Some(nalu))
    else if nalType == 8 then s.(pps := Some(nalu))
    else s
  }

  function AppendStartCode(s: State): State {
    s.(buffer := s.buffer + START_CODE)
  }

  /** The flag says whether the bytes fitted; if not, the partial frame is gone. */
  function Extend(s: State, bytes: seq<byte>): (State, bool) {
    if |s.buffer| + |bytes| > MAX_VIDEO_FRAME_BYTES then (Reset(s), false)
    else (s.(buffer := s.buffer + bytes), true)
  }

  function PushSingle(s: State, nal: seq<byte>): (State, bool)
    requires nal != []
  {
    var t := NalType(nal[0]);
    var (s', ok) := Extend(AppendStartCode(CacheParameterSet(s, t, nal)), nal);
    if !ok then (s', false) else (s'.(keyframe := s'.keyframe || t == 5, inFu := false), true)
  }

  function U16At(b: seq<byte>, i: nat): nat
    requires i + 2 <= |b|
  {
    U16Of(b[i], b[i + 1])
  }

  /** One aggregation unit of a STAP-A payload. */
  function PushUnit(s: State, nalu: seq<byte>): (State, bool)
    requires nalu != []
  {
    var t := NalType(nalu[0]);
    var s1 := CacheParameterSet(s, t, nalu);
    Extend(AppendStartCode(s1.(keyframe := s1.keyframe || t == 5)), nalu)
  }

  /** The aggregation units of a STAP-A payload from `cursor` on. */
  function PushStap(s: State, payload: seq<byte>, cursor: nat): (State, bool)
    decreases |payload| - cursor
  {
    if cursor + 2 > |payload| then (s, true)
    else
      var len := U16At(payload, cursor);
      var from := cursor + 2;
      if len == 0 || from + len > |payload| then (Reset(s), false)
      else
        var (s1, ok) := PushUnit(s, payload[from..from + len]);
        if !ok then (s1, false) else PushStap(s1, payload, from + len)
  }

  function FuHeaderByte(indicator: byte, fuHeader: byte): byte {
    (indicator / 32) * 32 + fuHeader % 32
  }

  function PushFu(s: State, payload: seq<byte>): (State, bool)
    requires payload != []
  {
    if |payload| < 2 then (s, false)
    else
      var fuHeader := payload[1];
      var t := NalType(fuHeader);
      if fuHeader >= 0x80 then
        var (s1, ok1) := Extend(AppendStartCode(s), [FuHeaderByte(payload[0], fuHeader)]);
        if !ok1 then (s1, false)
        else
          var (s2, ok2) := Extend(s1, payload[2..]);
          if !ok2 then (s2, false) else (s2.(inFu := true, keyframe := s2.keyframe || t == 5), true)
      else if !s.inFu then (s, false)
      else
        var (s1, ok) := Extend(s, payload[2..]);
        if !ok then (s1, false)
        else (if (fuHeader / 64) % 2 == 1 then s1.(inFu := false) else s1, true)
  }

  function PushPayload(s: State, payload: seq<byte>): (State, bool)
    requires payload != []
  {
    var t := NalType(payload[0]);
    if 1 <= t <= 23 then PushSingle(s, payload)
    else if t == 24 then PushStap(s, payload, 1)
    else if t == 28 then PushFu(s, payload)
    else (s, false)
  }

  ghost function Finish(s: State, marker: bool): (State, Option<Frame>) {
    if marker && s.buffer != [] then
      (Reset(s), Some(Frame(s.buffer, s.keyframe || HasNalType(s.buffer, 5))))
    else (s, None)
  }

  /** One received packet; the second component is the frame it completes, if any. */
  ghost function Push(s: State, timestamp: u32, marker: bool, payload: seq<byte>): (State, Option<Frame>) {
    if payload == [] then (s, None)
    else
      var (s', ok) := PushPayload(PrepareTimestamp(s, timestamp), payload);
      if ok then Finish(s', marker) else (s', None)
  }

  datatype Packet = Packet(timestamp: u32, marker: bool, payload: seq<byte>)

  ghost function Run(s: State, packets: seq<Packet>): (State, seq<Option<Frame>>)
    decreases |packets|
  {
    if packets == [] then (s, [])
    else
      var p := packets[0];
      var (s1, out) := Push(s, p.timestamp, p.marker, p.payload);
      var (s2, outs) := Run(s1, packets[1..]);
      (s2, [out] + outs)
  }

  // ---------------------------------------------------------------- what every packet stream keeps

  ghost predicate CachedAs(cached: Option<seq<byte>>, t: int) {
    cached.Some? ==> cached.value != [] && NalType(cached.value[0]) == t
  }

  ghost predicate Valid(s: State) {
    && |s.buffer| <= MAX_VIDEO_FRAME_BYTES
    && (s.keyframe ==> HasNalType(s.buffer, 5))
    && CachedAs(s.sps, 7)
    && CachedAs(s.pps, 8)
  }

  lemma {:induction false} HasNalTypeGrows(a: seq<byte>, b: seq<byte>, t: int)
    requires HasNalType(a, t)
    ensures HasNalType(a + b, t)
  {
    var p: nat :| HeaderAt(a, p) && NalType(a[p]) == t;
    assert HeaderAt(a + b, p) && (a + b)[p] == a[p];
  }

  lemma {:induction false} HasNalTypeBehind(a: seq<byte>, b: seq<byte>, t: int)
    requires HasNalType(b, t)
    ensures HasNalType(a + b, t)
  {
    var p: nat :| HeaderAt(b, p) && NalType(b[p]) == t;
    assert HeaderAt(a + b, |a| + p) && (a + b)[|a| + p] == b[p];
  }

  lemma {:induction false} HasNalTypeNew(a: seq<byte>, nal: seq<byte>)
    requires nal != []
    ensures HasNalType(a + START_CODE + nal, NalType(nal[0]))
  {
    var f := a + START_CODE + nal;
    assert HeaderAt(f, |a| + 4) && f[|a| + 4] == nal[0];
  }

  lemma {:induction false} PushUnitValid(s: State, nal: seq<byte>)
    requires Valid(s) && nal != []
    ensures Valid(PushUnit(s, nal).0)
  {
    HasNalTypeNew(s.buffer, nal);
    if s.keyframe {
      HasNalTypeGrows(s.buffer, START_CODE, 5);
      HasNalTypeGrows(s.buffer + START_CODE, nal, 5);
    }
  }

  lemma {:induction false} PushStapValid(s: State, payload: seq<byte>, cursor: nat)
    requires Valid(s)
    ensures Valid(PushStap(s, payload, cursor).0)
    decreases |payload| - cursor
  {
    if cursor + 2 <= |payload| {
      var len := U16At(payload, cursor);
      var from := cursor + 2;
      if 0 < len && from + len <= |payload| {
        var nalu := payload[from..from + len];
        PushUnitValid(s, nalu);
        PushStapValid(PushUnit(s, nalu).0, payload, from + len);
      }
    }
  }

  lemma {:induction false} FuStartShows(b: seq<byte>, header: byte, rest: seq<byte>, t: int)
    requires HasNalType(b, t) || NalType(header) == t
    ensures HasNalType(b + START_CODE + [header] + rest, t)
  {
    if HasNalType(b, t) {
      HasNalTypeGrows(b, START_CODE, t);
      HasNalTypeGrows(b + START_CODE, [header], t);
    } else {
      HasNalTypeNew(b, [header]);
    }
    HasNalTypeGrows(b + START_CODE + [header], rest, t);
  }

  lemma {:induction false} PushFuValid(s: State, payload: seq<byte>)
    requires Valid(s) && payload != []
    ensures Valid(PushFu(s, payload).0)
  {
    if |payload| >= 2 {
      var header := FuHeaderByte(payload[0], payload[1]);
      assert NalType(header) == NalType(payload[1]);
      if payload[1] >= 0x80 {
        if s.keyframe || NalType(header) == 5 {
          FuStartShows(s.buffer, header, payload[2..], 5);
        }
      } else if s.keyframe {
        HasNalTypeGrows(s.buffer, payload[2..], 5);
      }
    }
  }

  /** Every push keeps the bound and the caches' types, and flags a frame exactly when it holds an IDR slice. */
  lemma {:induction false} PushKeepsValid(s: State, timestamp: u32, marker: bool, payload: seq<byte>)
    requires Valid(s)
    ensures var (s', out) := Push(s, timestamp, marker, payload);
            && Valid(s')
            && (out.Some? ==> 0 < |out.value.bytes| <= MAX_VIDEO_FRAME_BYTES)
            && (out.Some? ==> (out.value.keyframe <==> HasNalType(out.value.bytes, 5)))
  {
    if payload != [] {
      var s1 := PrepareTimestamp(s, timestamp);
      assert Valid(s1);
      var t := NalType(payload[0]);
      if 1 <= t <= 23 {
        PushUnitValid(s1, payload);
      } else if t == 24 {
        PushStapValid(s1, payload, 1);
      } else if t == 28 {
        PushFuValid(s1, payload);
      }
    }
  }

  /** Packets of the other types are ignored: they complete no frame, marked or not, and the partial frame of
      their timestamp stays as it is. */
  lemma {:induction false} OtherTypesAreIgnored(s: State, timestamp: u32, marker: bool, payload: seq<byte>)
    requires payload != [] && NalType(payload[0]) in {0, 25, 26, 27, 29, 30, 31}
    ensures Push(s, timestamp, marker, payload) == (PrepareTimestamp(s, timestamp), None)
  {
  }

  /** A packet without payload changes nothing at all; a fragment without its header byte, or without a begun
      NAL unit to go on with, leaves the partial frame of its timestamp as it is. */
  lemma {:induction false} EmptyAndStrayAreIgnored(s: State, timestamp: u32, marker: bool, payload: seq<byte>)
    ensures Push(s, timestamp, marker, []) == (s, None)
    ensures payload != [] && NalType(payload[0]) == 28 && (|payload| == 1 || (payload[1] < 0x80 && !PrepareTimestamp(s, timestamp).inFu)) ==>
              Push(s, timestamp, marker, payload) == (PrepareTimestamp(s, timestamp), None)
  {
  }

  /** For every packet stream whatsoever. */
  lemma {:induction false} RunKeepsValid(s: State, packets: seq<Packet>)
    requires Valid(s)
    ensures var (s', outs) := Run(s, packets);
            && Valid(s')
            && |outs| == |packets|
            && forall i | 0 <= i < |outs| && outs[i].Some? ::
                 && 0 < |outs[i].value.bytes| <= MAX_VIDEO_FRAME_BYTES
                 && (outs[i].value.keyframe <==> HasNalType(outs[i].value.bytes, 5))
    decreases |packets|
  {
    if packets != [] {
      var p := packets[0];
      PushKeepsValid(s, p.timestamp, p.marker, p.payload);
      RunKeepsValid(Push(s, p.timestamp, p.marker, p.payload).0, packets[1..]);
    }
  }

  // ---------------------------------------------------------------- prepending cached parameter sets

  function WithCode(nal: Option<seq<byte>>): seq<byte> {
    if nal.Some? then START_CODE + nal.value else []
  }

  ghost function Prepended(s: State, frame: seq<byte>): seq<byte> {
    WithCode(if HasNalType(frame, 7) then None else s.sps)
    + WithCode(if HasNalType(frame, 8) then None else s.pps)
    + frame
  }

  /** In every reachable state the result ends with the frame and shows each parameter set that the
      frame had or the depacketizer cached; once both are there a second call changes nothing. */
  lemma {:induction false} PrependAfterAnyRun(packets: seq<Packet>, frame: seq<byte>)
    ensures var s := Run(INITIAL, packets).0;
            var out := Prepended(s, frame);
            && |out| >= |frame| && out[|out| - |frame|..] == frame
            && (HasNalType(frame, 7) || s.sps.Some? ==> HasNalType(out, 7))
            && (HasNalType(frame, 8) || s.pps.Some? ==> HasNalType(out, 8))
            && Prepended(s, out) == out
  {
    RunKeepsValid(INITIAL, packets);
    PrependShows(Run(INITIAL, packets).0, frame);
  }

  lemma {:induction false} PrependShows(s: State, frame: seq<byte>)
    requires Valid(s)
    ensures var out := Prepended(s, frame);
            && |out| >= |frame| && out[|out| - |frame|..] == frame
            && (HasNalType(frame, 7) || s.sps.Some? ==> HasNalType(out, 7))
            && (HasNalType(frame, 8) || s.pps.Some? ==> HasNalType(out, 8))
            && Prepended(s, out) == out
  {
    var a := WithCode(if HasNalType(frame, 7) then None else s.sps);
    var b := WithCode(if HasNalType(frame, 8) then None else s.pps);
    PrefixShows([], if HasNalType(frame, 7) then None else s.sps, b, frame, 7);
    assert [] + a == a;
    PrefixShows(a, if HasNalType(frame, 8) then None else s.pps, [], frame, 8);
    assert (a + b) + [] == a + b;
  }

  /** A parameter set between `a` and `b` shows in the result, as does what the frame has. */
  lemma {:induction false} PrefixShows(a: seq<byte>, nal: Option<seq<byte>>, b: seq<byte>, frame: seq<byte>, t: int)
    requires CachedAs(nal, t)
    ensures HasNalType(frame, t) || nal.Some? ==> HasNalType(a + WithCode(nal) + b + frame, t)
  {
    var head := a + WithCode(nal) + b;
    if HasNalType(frame, t) {
      HasNalTypeBehind(head, frame, t);
    } else if nal.Some? {
      WithCodeShows(a, nal.value);
      HasNalTypeGrows(a + WithCode(nal), b, t);
      HasNalTypeGrows(head, frame, t);
    }
  }

  lemma {:induction false} WithCodeShows(a: seq<byte>, nal: seq<byte>)
    requires nal != []
    ensures HasNalType(a + WithCode(Some(nal)), NalType(nal[0]))
  {
    HasNalTypeNew(a, nal);
    Assoc(a, START_CODE, nal);
  }

  function Listed(nal: Option<seq<byte>>): seq<seq<byte>> {
    if nal.Some? then [nal.value] else []
  }

  /** For a frame as the depacketizer assembles it, the missing parameter sets become its first NAL
      units, sequence parameter set first, and the others stay as they were. */
  lemma {:induction false} PrependedNals(s: State, frame: seq<byte>)
    requires START_CODE <= frame
    requires s.sps.Some? ==> Clean(s.sps.value)
    requires s.pps.Some? ==> Clean(s.pps.value)
    ensures Nals(Prepended(s, frame)) ==
            Listed(if HasNalType(frame, 7) then None else s.sps)
            + Listed(if HasNalType(frame, 8) then None else s.pps)
            + Nals(frame)
  {
    var sps := if HasNalType(frame, 7) then None else s.sps;
    var pps := if HasNalType(frame, 8) then None else s.pps;
    NalsBehind(pps, frame);
    assert START_CODE <= WithCode(pps) + frame;
    NalsBehind(sps, WithCode(pps) + frame);
    Assoc(WithCode(sps), WithCode(pps), frame);
    Assoc(Listed(sps), Listed(pps), Nals(frame));
  }

  lemma {:induction false} NalsBehind(nal: Option<seq<byte>>, frame: seq<byte>)
    requires START_CODE <= frame && (nal.Some? ==> Clean(nal.value))
    ensures Nals(WithCode(nal) + frame) == Listed(nal) + Nals(frame)
  {
    if nal.Some? {
      var tail := frame[4..];
      assert frame == Code(4) + tail;
      NalsBehindCode(4, tail);
      ReadOne(nal.value, tail, 4);
      Assoc(START_CODE, nal.value, frame);
      NalsBehindCode(4, nal.value + frame);
    } else {
      assert WithCode(nal) + frame == frame;
    }
  }
}
