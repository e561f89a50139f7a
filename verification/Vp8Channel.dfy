/** VP8 frames over a channel that loses, repeats and reorders packets: a frame comes out complete or
    not at all. */
module Vp8Channel {
  import opened Bytes
  import opened Vp8Depacketizer
  import opened Channel
  import H264 = H264Depacketizer
  import VS = VideoStream

  type Packet = H264.Packet

  /** One packet of a frame: its payload descriptor and its part of the frame. */
  datatype Piece = Piece(desc: Descriptor, body: seq<byte>)

  datatype Unit = Unit(timestamp: u32, pieces: seq<Piece>)

  /** The first packet starts partition 0 and no other does; every packet carries something. */
  ghost predicate WellFormed(u: Unit) {
    && u.pieces != []
    && (forall i | 0 <= i < |u.pieces| :: u.pieces[i].body != [])
    && (forall i | 0 <= i < |u.pieces| :: StartsFrame(u.pieces[i].desc) <==> i == 0)
  }

  ghost predicate Sendable(units: seq<Unit>) {
    forall k | 0 <= k < |units| :: WellFormed(units[k])
  }

  /** The bytes of the first `n` packets. */
  function Bodies(u: Unit, n: nat): seq<byte>
    requires n <= |u.pieces|
  {
    if n == 0 then [] else Bodies(u, n - 1) + u.pieces[n - 1].body
  }

  function Whole(u: Unit): seq<byte> {
    Bodies(u, |u.pieces|)
  }

  function UnitPacket(u: Unit, i: nat): Packet
    requires i < |u.pieces|
  {
    H264.Packet(u.timestamp, i + 1 == |u.pieces|, Encode(u.pieces[i].desc) + u.pieces[i].body)
  }

  predicate Blank(s: State) {
    s.buffer == [] && !s.sawStart
  }

  /** The buffer holds the first `n` packets of `u`. */
  ghost predicate Holding(s: State, u: Unit, n: nat) {
    && 0 < n <= |u.pieces|
    && s.timestamp == Some(u.timestamp) && s.sawStart
    && s.buffer == Bodies(u, n) && s.buffer != []
    && (s.keyframe <==> s.buffer[0] % 2 == 0)
  }

  lemma {:induction false} PushPiece(s: State, u: Unit, i: nat)
    requires i < |u.pieces| && u.pieces[i].body != []
    ensures Push(s, u.timestamp, i + 1 == |u.pieces|, UnitPacket(u, i).payload) ==
            PushBody(PrepareTimestamp(s, u.timestamp), i + 1 == |u.pieces|, StartsFrame(u.pieces[i].desc), u.pieces[i].body)
  {
    var d, body := u.pieces[i].desc, u.pieces[i].body;
    DescriptorRoundTrip(d, body);
    assert (Encode(d) + body)[|Encode(d)|..] == body;
  }

  lemma {:induction false} BodiesGrow(u: Unit, n: nat, m: nat)
    requires n <= m <= |u.pieces|
    ensures |Bodies(u, n)| <= |Bodies(u, m)|
    decreases m
  {
    if n < m { BodiesGrow(u, n, m - 1); }
  }

  /** What a push of packet `i` may do: nothing, hold the frame so far, or emit all of it. */
  ghost predicate GoodStep(u: Unit, i: nat, s': State, out: Option<Frame>) {
    && (Blank(s') || (i + 1 < |u.pieces| && Holding(s', u, i + 1)))
    && (out.Some? ==>
          && i + 1 == |u.pieces|
          && out.value.bytes == Whole(u) && out.value.bytes != []
          && (out.value.keyframe <==> out.value.bytes[0] % 2 == 0))
  }

  lemma {:induction false} StepFromBlank(s: State, u: Unit, i: nat)
    requires WellFormed(u) && i < |u.pieces| && (Blank(s) || s.timestamp != Some(u.timestamp))
    ensures var (s', out) := Push(s, u.timestamp, i + 1 == |u.pieces|, UnitPacket(u, i).payload);
            && GoodStep(u, i, s', out)
            && (i == 0 && |Bodies(u, 1)| <= MAX_VIDEO_FRAME_BYTES ==>
                  if |u.pieces| == 1 then out.Some? else Holding(s', u, 1))
  {
    PushPiece(s, u, i);
    assert Bodies(u, 1) == Bodies(u, 0) + u.pieces[0].body;
  }

  lemma {:induction false} StepFromHolding(s: State, u: Unit, i: nat)
    requires WellFormed(u) && i < |u.pieces| && Holding(s, u, i)
    ensures var (s', out) := Push(s, u.timestamp, i + 1 == |u.pieces|, UnitPacket(u, i).payload);
            && GoodStep(u, i, s', out)
            && (|Bodies(u, i + 1)| <= MAX_VIDEO_FRAME_BYTES ==>
                  if i + 1 == |u.pieces| then out.Some? else Holding(s', u, i + 1))
  {
    PushPiece(s, u, i);
    assert Bodies(u, i + 1) == Bodies(u, i) + u.pieces[i].body;
  }

  // ---------------------------------------------------------------- the channel

  function AsFrames(units: seq<Unit>): Frames {
    Frames(seq(|units|, k requires 0 <= k < |units| => units[k].timestamp),
           seq(|units|, k requires 0 <= k < |units| => |units[k].pieces|))
  }

  function PacketOf(units: seq<Unit>, d: Delivery): Packet
    requires Deliverable(AsFrames(units), d)
  {
    UnitPacket(units[d.unit], d.index)
  }

  ghost function Receive(units: seq<Unit>, base: nat, s: VS.State, ds: seq<Delivery>): seq<Option<Frame>>
    requires AllDeliverable(AsFrames(units), ds)
    decreases |ds|
  {
    if ds == [] then []
    else
      var (s', out) := VS.Push(s, SequenceOf(AsFrames(units), base, ds[0]), PacketOf(units, ds[0]));
      [out] + Receive(units, base, s', ds[1..])
  }

  ghost predicate Received(units: seq<Unit>, base: nat, s: VS.State, d: Delivery)
    requires Deliverable(AsFrames(units), d)
  {
    && s.codec == VS.Vp8Codec
    && s.lastSequence == Some(SequenceOf(AsFrames(units), base, d))
    && (Blank(s.vp8) || (d.index + 1 < |units[d.unit].pieces| && Holding(s.vp8, units[d.unit], d.index + 1)))
  }

  /** The frame is, byte for byte, the sent frame whose last packet has just arrived, and it is flagged a
      key frame exactly when its first byte says so. */
  ghost predicate GoodOutput(units: seq<Unit>, d: Delivery, out: Option<Frame>)
    requires Deliverable(AsFrames(units), d)
  {
    out.Some? ==>
      && d.index + 1 == |units[d.unit].pieces|
      && out.value.bytes == Whole(units[d.unit]) && out.value.bytes != []
      && (out.value.keyframe <==> out.value.bytes[0] % 2 == 0)
  }

  lemma {:induction false} ReceiveBlank(units: seq<Unit>, base: nat, s: VS.State, d: Delivery)
    requires Sendable(units) && Deliverable(AsFrames(units), d)
    requires s.codec == VS.Vp8Codec
    requires var v := VS.Accept(s, SequenceOf(AsFrames(units), base, d)).vp8;
             Blank(v) || v.timestamp != Some(units[d.unit].timestamp)
    ensures var (s', out) := VS.Push(s, SequenceOf(AsFrames(units), base, d), PacketOf(units, d));
            Received(units, base, s', d) && GoodOutput(units, d, out)
  {
    StepFromBlank(VS.Accept(s, SequenceOf(AsFrames(units), base, d)).vp8, units[d.unit], d.index);
  }

  lemma {:induction false} ReceiveNext(units: seq<Unit>, base: nat, s: VS.State, d1: Delivery, d2: Delivery)
    requires Sendable(units) && Deliverable(AsFrames(units), d1) && Deliverable(AsFrames(units), d2)
    requires Received(units, base, s, d1) && NoAliasing(AsFrames(units), d1, d2)
    ensures var (s', out) := VS.Push(s, SequenceOf(AsFrames(units), base, d2), PacketOf(units, d2));
            Received(units, base, s', d2) && GoodOutput(units, d2, out)
  {
    var q := SequenceOf(AsFrames(units), base, d2);
    if VS.NextSequence(SequenceOf(AsFrames(units), base, d1)) != q || Blank(s.vp8)
       || s.vp8.timestamp != Some(units[d2.unit].timestamp) {
      ReceiveBlank(units, base, s, d2);
    } else {
      SequenceMatch(base, Position(AsFrames(units), d1), Position(AsFrames(units), d2));
      assert d2 == Delivery(d1.unit, d1.index + 1);
      StepFromHolding(s.vp8, units[d2.unit], d2.index);
    }
  }

  lemma {:induction false} ReceiveRest(units: seq<Unit>, base: nat, s: VS.State, d: Delivery, ds: seq<Delivery>)
    requires Sendable(units) && Deliverable(AsFrames(units), d) && AllDeliverable(AsFrames(units), ds)
    requires Received(units, base, s, d)
    requires Unaliased(AsFrames(units), [d] + ds)
    ensures var outs := Receive(units, base, s, ds);
            |outs| == |ds| && forall i | 0 <= i < |outs| :: GoodOutput(units, ds[i], outs[i])
    decreases |ds|
  {
    if ds != [] {
      assert ([d] + ds)[0] == d && ([d] + ds)[1] == ds[0];
      ReceiveNext(units, base, s, d, ds[0]);
      var s' := VS.Push(s, SequenceOf(AsFrames(units), base, ds[0]), PacketOf(units, ds[0])).0;
      assert [ds[0]] + ds[1..] == ([d] + ds)[1..];
      ReceiveRest(units, base, s', ds[0], ds[1..]);
    }
  }

  /** Safety under any loss, duplication and reordering. */
  lemma {:induction false} ChannelSafety(units: seq<Unit>, base: nat, ds: seq<Delivery>)
    requires Sendable(units) && AllDeliverable(AsFrames(units), ds) && Unaliased(AsFrames(units), ds)
    ensures var outs := Receive(units, base, VS.Fresh(VS.Vp8Codec), ds);
            |outs| == |ds| && forall i | 0 <= i < |outs| :: GoodOutput(units, ds[i], outs[i])
  {
    if ds != [] {
      var s := VS.Fresh(VS.Vp8Codec);
      ReceiveBlank(units, base, s, ds[0]);
      var s' := VS.Push(s, SequenceOf(AsFrames(units), base, ds[0]), PacketOf(units, ds[0])).0;
      assert [ds[0]] + ds[1..] == ds;
      ReceiveRest(units, base, s', ds[0], ds[1..]);
    }
  }

  // ---------------------------------------------------------------- when nothing is lost

  /** Packets `i`.. of `u` pushed in order. */
  function RunFrom(s: State, u: Unit, i: nat): (State, seq<Option<Frame>>)
    requires i <= |u.pieces|
    decreases |u.pieces| - i
  {
    if i == |u.pieces| then (s, [])
    else
      var p := UnitPacket(u, i);
      var (s1, out) := Push(s, p.timestamp, p.marker, p.payload);
      var (s2, outs) := RunFrom(s1, u, i + 1);
      (s2, [out] + outs)
  }

  function WholeFrame(u: Unit): Frame
    requires Whole(u) != []
  {
    H264.Frame(Whole(u), Whole(u)[0] % 2 == 0)
  }

  lemma {:induction false} WholeNotEmpty(u: Unit)
    requires WellFormed(u)
    ensures Whole(u) != []
  {
  }

  lemma {:induction false} RunCons(s: State, u: Unit, i: nat)
    requires i < |u.pieces|
    ensures var p := UnitPacket(u, i);
            var (s1, out) := Push(s, p.timestamp, p.marker, p.payload);
            RunFrom(s, u, i).1 == (if i + 1 == |u.pieces| then [out] else [out] + RunFrom(s1, u, i + 1).1)
  {
  }

  lemma {:induction false} RunWhole(s: State, u: Unit, i: nat)
    requires WellFormed(u) && 0 < i < |u.pieces| && Holding(s, u, i)
    requires |Whole(u)| <= MAX_VIDEO_FRAME_BYTES
    ensures Whole(u) != [] && VS.OnlyAtEnd(RunFrom(s, u, i).1, Some(WholeFrame(u)))
    decreases |u.pieces| - i
  {
    WholeNotEmpty(u);
    StepFromHolding(s, u, i);
    BodiesGrow(u, i + 1, |u.pieces|);
    RunCons(s, u, i);
    if i + 1 < |u.pieces| {
      var p := UnitPacket(u, i);
      RunWhole(Push(s, p.timestamp, p.marker, p.payload).0, u, i + 1);
    }
  }

  predicate Fits(out: Option<Frame>) {
    out.Some? ==> |out.value.bytes| <= MAX_VIDEO_FRAME_BYTES
  }

  lemma {:induction false} RunBounded(s: State, u: Unit, i: nat)
    requires i < |u.pieces|
    ensures forall out | out in RunFrom(s, u, i).1 :: Fits(out)
    decreases |u.pieces| - i
  {
    var p := UnitPacket(u, i);
    PushBounded(s, p);
    RunCons(s, u, i);
    if i + 1 < |u.pieces| {
      RunBounded(Push(s, p.timestamp, p.marker, p.payload).0, u, i + 1);
    }
  }

  lemma {:induction false} PushBounded(s: State, p: Packet)
    ensures Fits(Push(s, p.timestamp, p.marker, p.payload).1)
  {
  }

  /** A frame whose packets all arrive in order is emitted with its last packet exactly when it fits. */
  lemma {:induction false} FrameArrivesIff(s: State, u: Unit)
    requires WellFormed(u) && (Blank(s) || s.timestamp != Some(u.timestamp))
    ensures Whole(u) != []
    ensures VS.OnlyAtEnd(RunFrom(s, u, 0).1, Some(WholeFrame(u))) <==> |Whole(u)| <= MAX_VIDEO_FRAME_BYTES
  {
    WholeNotEmpty(u);
    RunBounded(s, u, 0);
    assert VS.OnlyAtEnd(RunFrom(s, u, 0).1, Some(WholeFrame(u))) ==> Fits(Some(WholeFrame(u)));
    if |Whole(u)| <= MAX_VIDEO_FRAME_BYTES {
      StepFromBlank(s, u, 0);
      BodiesGrow(u, 1, |u.pieces|);
      RunCons(s, u, 0);
      if |u.pieces| > 1 {
        var p := UnitPacket(u, 0);
        RunWhole(Push(s, p.timestamp, p.marker, p.payload).0, u, 1);
      }
    }
  }
}
