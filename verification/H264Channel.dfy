/** H.264 frames over a channel that loses, repeats and reorders packets.

    A sender packetizes access units under one wrapping 16-bit sequence; the receiver gets any finite
    list of those packets. Whatever it emits is a suffix of one access unit's NAL units. */
module H264Channel {
  import opened Bytes
  import opened AnnexB
  import opened AnnexBRewrite
  import opened H264Depacketizer
  import opened H264Packets
  import opened Channel
  import VS = VideoStream

  // ---------------------------------------------------------------- one payload

  /** The state when nothing is in progress. */
  predicate Idle(s: State) {
    s.buffer == [] && !s.inFu
  }

  lemma {:induction false} FirstFragment(s: State, nal: seq<byte>)
    requires Carried(nal)
    ensures var (s', ok) := PushPayload(s, Payload(nal, 0));
            && (ok <==> |s.buffer| + 4 + SentUpTo(nal, 0) <= MAX_VIDEO_FRAME_BYTES)
            && (ok ==> s'.buffer == s.buffer + (START_CODE + nal[..SentUpTo(nal, 0)]))
            && (ok ==> s'.timestamp == s.timestamp && s'.inFu == !LastFrag(nal, 0))
            && (!ok ==> Idle(s'))
  {
    var payload := Payload(nal, 0);
    if Single(nal) {
      assert nal[..SentUpTo(nal, 0)] == nal;
      Assoc(s.buffer, START_CODE, nal);
    } else {
      var chunk := nal[1..SentUpTo(nal, 0)];
      assert payload[2..] == chunk;
      FuHeaderParts(nal, 0);
      assert FuHeaderByte(payload[0], payload[1]) == nal[0];
      assert [nal[0]] + chunk == nal[..SentUpTo(nal, 0)];
      Assoc(s.buffer + START_CODE, [nal[0]], chunk);
      Assoc(s.buffer, START_CODE, nal[..SentUpTo(nal, 0)]);
    }
  }

  lemma {:induction false} FuHeaderParts(nal: seq<byte>, frag: nat)
    requires HasFrag(nal, frag) && !Single(nal)
    ensures var payload := Payload(nal, frag);
            && |payload| >= 2
            && NalType(payload[0]) == 28
            && payload[0] / 32 == nal[0] / 32
            && NalType(payload[1]) == NalType(nal[0]) && payload[1] % 32 == nal[0] % 32
            && (payload[1] >= 0x80 <==> frag == 0)
            && ((payload[1] / 64) % 2 == 1 <==> LastFrag(nal, frag))
            && payload[2..] == nal[1 + MAX_FU_PAYLOAD * frag..SentUpTo(nal, frag)]
  {
  }

  lemma {:induction false} LaterFragment(s: State, nal: seq<byte>, frag: nat)
    requires frag > 0 && HasFrag(nal, frag)
    ensures var (s', ok) := PushPayload(s, Payload(nal, frag));
            && (!s.inFu ==> (s', ok) == (s, false))
            && (s.inFu ==> (ok <==> |s.buffer| + SentUpTo(nal, frag) - SentUpTo(nal, frag - 1) <= MAX_VIDEO_FRAME_BYTES))
            && (ok ==> s'.buffer == s.buffer + nal[SentUpTo(nal, frag - 1)..SentUpTo(nal, frag)])
            && (ok ==> s'.timestamp == s.timestamp && s'.inFu == !LastFrag(nal, frag))
            && (s.inFu && !ok ==> Idle(s'))
  {
    FuHeaderParts(nal, frag);
  }

  // ---------------------------------------------------------------- one packet

  /** The buffer holds NAL units `a` up to `slot.nal`, the last as far as `slot` has brought it. */
  ghost predicate Holding(s: State, nals: seq<seq<byte>>, timestamp: u32, a: nat, slot: Slot)
    requires ValidSlot(nals, slot)
  {
    && a <= slot.nal
    && s.timestamp == Some(timestamp)
    && s.inFu == !LastFrag(nals[slot.nal], slot.frag)
    && s.buffer == Join4(nals[a..slot.nal]) + (START_CODE + nals[slot.nal][..SentUpTo(nals[slot.nal], slot.frag)])
  }

  ghost predicate AfterSlot(s: State, nals: seq<seq<byte>>, timestamp: u32, slot: Slot)
    requires ValidSlot(nals, slot)
  {
    Idle(s) || (!FinalSlot(nals, slot) && exists a :: Holding(s, nals, timestamp, a, slot))
  }

  ghost predicate IsSuffix(bytes: seq<byte>, nals: seq<seq<byte>>) {
    exists a :: 0 <= a < |nals| && bytes == Join4(nals[a..])
  }

  lemma {:induction false} JoinComplete(nals: seq<seq<byte>>, a: nat, m: nat)
    requires a <= m < |nals|
    ensures Join4(nals[a..m]) + (START_CODE + nals[m][..|nals[m]|]) == Join4(nals[a..m + 1])
  {
    JoinSnoc(nals[a..m], nals[m], 4, 4);
    assert nals[a..m] + [nals[m]] == nals[a..m + 1];
    assert nals[m][..|nals[m]|] == nals[m];
  }

  /** From a held state to the end of the push. */
  lemma {:induction false} FinishHeld(s: State, nals: seq<seq<byte>>, timestamp: u32, a: nat, slot: Slot)
    requires ValidSlot(nals, slot) && Holding(s, nals, timestamp, a, slot)
    ensures var (s', out) := Finish(s, FinalSlot(nals, slot));
            && AfterSlot(s', nals, timestamp, slot)
            && (FinalSlot(nals, slot) ==> out.Some? && out.value.bytes == Join4(nals[a..]))
            && (!FinalSlot(nals, slot) ==> out == None && s' == s)
  {
    if FinalSlot(nals, slot) {
      JoinComplete(nals, a, slot.nal);
      assert nals[a..slot.nal + 1] == nals[a..];
    }
  }

  lemma {:induction false} StepFromIdle(s: State, nals: seq<seq<byte>>, timestamp: u32, slot: Slot)
    requires ValidSlot(nals, slot) && Carried(nals[slot.nal]) && Idle(s)
    ensures var p := SlotPacket(nals, timestamp, slot);
            var (s', out) := Push(s, p.timestamp, p.marker, p.payload);
            && AfterSlot(s', nals, timestamp, slot)
            && (out.Some? ==> FinalSlot(nals, slot) && IsSuffix(out.value.bytes, nals))
            && (slot.frag == 0 ==>
                  if FinalSlot(nals, slot) then out.Some? && out.value.bytes == Join4(nals[slot.nal..])
                  else Holding(s', nals, timestamp, slot.nal, slot))
  {
    var p := SlotPacket(nals, timestamp, slot);
    var nal := nals[slot.nal];
    var s1 := PrepareTimestamp(s, timestamp);
    if slot.frag == 0 {
      FirstFragment(s1, nal);
      var (s2, ok) := PushPayload(s1, p.payload);
      if ok {
        assert nals[slot.nal..slot.nal] == [];
        assert s2.buffer == Join4(nals[slot.nal..slot.nal]) + (START_CODE + nal[..SentUpTo(nal, 0)]);
        assert Holding(s2, nals, timestamp, slot.nal, slot);
        FinishHeld(s2, nals, timestamp, slot.nal, slot);
      }
    } else {
      LaterFragment(s1, nal, slot.frag);
    }
  }

  lemma {:induction false} StepFromHolding(s: State, nals: seq<seq<byte>>, timestamp: u32, a: nat, slot: Slot)
    requires ValidSlot(nals, slot) && !FinalSlot(nals, slot)
    requires ValidSlot(nals, NextSlot(nals, slot)) && Carried(nals[NextSlot(nals, slot).nal])
    requires Holding(s, nals, timestamp, a, slot)
    ensures var next := NextSlot(nals, slot);
            var p := SlotPacket(nals, timestamp, next);
            var (s', out) := Push(s, p.timestamp, p.marker, p.payload);
            && AfterSlot(s', nals, timestamp, next)
            && (out.Some? ==> FinalSlot(nals, next) && out.value.bytes == Join4(nals[a..]))
            && (|Join4(nals[a..next.nal])| + 4 + SentUpTo(nals[next.nal], next.frag) <= MAX_VIDEO_FRAME_BYTES ==>
                  if FinalSlot(nals, next) then out.Some? else Holding(s', nals, timestamp, a, next))
  {
    var next := NextSlot(nals, slot);
    var p := SlotPacket(nals, timestamp, next);
    var nal := nals[next.nal];
    var (s2, ok) := PushPayload(s, p.payload);
    if next.frag == 0 {
      FirstFragment(s, nal);
      JoinComplete(nals, a, slot.nal);
    } else {
      LaterFragment(s, nal, next.frag);
      var x, y := SentUpTo(nal, slot.frag), SentUpTo(nal, next.frag);
      assert nal[..x] + nal[x..y] == nal[..y];
      Assoc(START_CODE, nal[..x], nal[x..y]);
      Assoc(Join4(nals[a..slot.nal]), START_CODE + nal[..x], nal[x..y]);
    }
    if ok {
      assert Holding(s2, nals, timestamp, a, next);
      FinishHeld(s2, nals, timestamp, a, next);
    }
  }

  // ---------------------------------------------------------------- the channel

  /** One access unit as sent: its RTP timestamp and its NAL units. */
  datatype Unit = Unit(timestamp: u32, nals: seq<seq<byte>>)

  ghost predicate Sendable(units: seq<Unit>) {
    forall k | 0 <= k < |units| ::
      units[k].nals != [] && forall j | 0 <= j < |units[k].nals| :: Carried(units[k].nals[j])
  }

  /** The slots of unit `k`. */
  function UnitSlots(units: seq<Unit>, k: nat): seq<Slot>
    requires Sendable(units) && k < |units|
  {
    Slots(units[k].nals)
  }

  lemma {:induction false} UnitSlotsChained(units: seq<Unit>, k: nat)
    requires Sendable(units) && k < |units|
    ensures UnitSlots(units, k) != [] && Chained(units[k].nals, UnitSlots(units, k))
  {
    SlotsFromChained(units[k].nals, Slot(0, 0));
  }

  function AsFrames(units: seq<Unit>): Frames
    requires Sendable(units)
  {
    Frames(seq(|units|, k requires 0 <= k < |units| => units[k].timestamp),
           seq(|units|, k requires 0 <= k < |units| && Sendable(units) => |UnitSlots(units, k)|))
  }

  ghost function SlotOf(units: seq<Unit>, d: Delivery): Slot
    requires Sendable(units) && Deliverable(AsFrames(units), d)
    ensures ValidSlot(units[d.unit].nals, SlotOf(units, d))
  {
    UnitSlotsChained(units, d.unit);
    UnitSlots(units, d.unit)[d.index]
  }

  ghost function PacketOf(units: seq<Unit>, d: Delivery): Packet
    requires Sendable(units) && Deliverable(AsFrames(units), d)
  {
    SlotPacket(units[d.unit].nals, units[d.unit].timestamp, SlotOf(units, d))
  }

  ghost function Receive(units: seq<Unit>, base: nat, s: VS.State, ds: seq<Delivery>): seq<Option<Frame>>
    requires Sendable(units) && AllDeliverable(AsFrames(units), ds)
    decreases |ds|
  {
    if ds == [] then []
    else
      var (s', out) := VS.Push(s, SequenceOf(AsFrames(units), base, ds[0]), PacketOf(units, ds[0]));
      [out] + Receive(units, base, s', ds[1..])
  }

  /** What holds after packet `d` was received. */
  ghost predicate Received(units: seq<Unit>, base: nat, s: VS.State, d: Delivery)
    requires Sendable(units) && Deliverable(AsFrames(units), d)
  {
    && s.codec == VS.H264Codec
    && s.lastSequence == Some(SequenceOf(AsFrames(units), base, d))
    && Valid(s.h264)
    && AfterSlot(s.h264, units[d.unit].nals, units[d.unit].timestamp, SlotOf(units, d))
  }

  /** The frame is a suffix of the NAL units of the access unit whose last packet has just arrived. */
  ghost predicate GoodOutput(units: seq<Unit>, d: Delivery, out: Option<Frame>)
    requires Sendable(units) && Deliverable(AsFrames(units), d)
  {
    out.Some? ==>
      && d.index + 1 == |UnitSlots(units, d.unit)|
      && IsSuffix(out.value.bytes, units[d.unit].nals)
      && (out.value.keyframe <==> HasNalType(out.value.bytes, 5))
  }

  /** A packet of another timestamp starts from an empty buffer. */
  lemma {:induction false} OtherTimestamp(s: State, p: Packet)
    requires p.payload != [] && s.timestamp != Some(p.timestamp)
    ensures Push(s, p.timestamp, p.marker, p.payload) == Push(Reset(s), p.timestamp, p.marker, p.payload)
  {
  }

  lemma {:induction false} PacketPayloadNonEmpty(nals: seq<seq<byte>>, timestamp: u32, slot: Slot)
    requires ValidSlot(nals, slot)
    ensures SlotPacket(nals, timestamp, slot).payload != []
  {
  }

  lemma {:induction false} ReceiveIdle(units: seq<Unit>, base: nat, s: VS.State, d: Delivery)
    requires Sendable(units) && Deliverable(AsFrames(units), d)
    requires s.codec == VS.H264Codec && Valid(s.h264)
    requires Idle(VS.Accept(s, SequenceOf(AsFrames(units), base, d)).h264)
             || VS.Accept(s, SequenceOf(AsFrames(units), base, d)).h264.timestamp != Some(units[d.unit].timestamp)
    ensures var (s', out) := VS.Push(s, SequenceOf(AsFrames(units), base, d), PacketOf(units, d));
            Received(units, base, s', d) && GoodOutput(units, d, out)
  {
    var p := PacketOf(units, d);
    var h := VS.Accept(s, SequenceOf(AsFrames(units), base, d)).h264;
    var nals := units[d.unit].nals;
    UnitSlotsChained(units, d.unit);
    PacketPayloadNonEmpty(nals, units[d.unit].timestamp, SlotOf(units, d));
    PushKeepsValid(h, p.timestamp, p.marker, p.payload);
    if Idle(h) {
      StepFromIdle(h, nals, units[d.unit].timestamp, SlotOf(units, d));
    } else {
      OtherTimestamp(h, p);
      StepFromIdle(Reset(h), nals, units[d.unit].timestamp, SlotOf(units, d));
    }
  }

  lemma {:induction false} ReceiveNext(units: seq<Unit>, base: nat, s: VS.State, d1: Delivery, d2: Delivery)
    requires Sendable(units) && Deliverable(AsFrames(units), d1) && Deliverable(AsFrames(units), d2)
    requires Received(units, base, s, d1) && NoAliasing(AsFrames(units), d1, d2)
    ensures var (s', out) := VS.Push(s, SequenceOf(AsFrames(units), base, d2), PacketOf(units, d2));
            Received(units, base, s', d2) && GoodOutput(units, d2, out)
  {
    var q := SequenceOf(AsFrames(units), base, d2);
    UnitSlotsChained(units, d1.unit);
    if VS.NextSequence(SequenceOf(AsFrames(units), base, d1)) != q || Idle(s.h264)
       || s.h264.timestamp != Some(units[d2.unit].timestamp) {
      ReceiveIdle(units, base, s, d2);
    } else {
      SequenceMatch(base, Position(AsFrames(units), d1), Position(AsFrames(units), d2));
      assert d2 == Delivery(d1.unit, d1.index + 1);
      var nals, timestamp := units[d1.unit].nals, units[d1.unit].timestamp;
      var slot := SlotOf(units, d1);
      assert SlotOf(units, d2) == NextSlot(nals, slot);
      var a :| Holding(s.h264, nals, timestamp, a, slot);
      StepFromHolding(s.h264, nals, timestamp, a, slot);
      var p := PacketOf(units, d2);
      PushKeepsValid(s.h264, p.timestamp, p.marker, p.payload);
    }
  }

  lemma {:induction false} ReceiveRest(units: seq<Unit>, base: nat, s: VS.State, d: Delivery, ds: seq<Delivery>)
    requires Sendable(units) && Deliverable(AsFrames(units), d) && AllDeliverable(AsFrames(units), ds)
    requires Received(units, base, s, d)
    requires Unaliased(AsFrames(units), [d] + ds)
    ensures var outs := Receive(units, base, s, ds);
            |outs| == |ds| && forall i | 0 <= i < |outs| :: GoodOutput(units, ds[i], outs[i])
    decreases |ds|
  {
    if ds != [] {
      assert ([d] + ds)[0] == d && ([d] + ds)[1] == ds[0];
      ReceiveNext(units, base, s, d, ds[0]);
      var s' := VS.Push(s, SequenceOf(AsFrames(units), base, ds[0]), PacketOf(units, ds[0])).0;
      assert [ds[0]] + ds[1..] == ([d] + ds)[1..];
      ReceiveRest(units, base, s', ds[0], ds[1..]);
    }
  }

  /** Safety under any loss, duplication and reordering: every emitted frame is the four-byte join of a
      non-empty suffix of the NAL units of exactly one sent access unit, and its flag tells the truth. */
  lemma {:induction false} ChannelSafety(units: seq<Unit>, base: nat, ds: seq<Delivery>)
    requires Sendable(units) && AllDeliverable(AsFrames(units), ds) && Unaliased(AsFrames(units), ds)
    ensures var outs := Receive(units, base, VS.Fresh(VS.H264Codec), ds);
            |outs| == |ds| && forall i | 0 <= i < |outs| :: GoodOutput(units, ds[i], outs[i])
  {
    if ds != [] {
      var s := VS.Fresh(VS.H264Codec);
      ReceiveIdle(units, base, s, ds[0]);
      var s' := VS.Push(s, SequenceOf(AsFrames(units), base, ds[0]), PacketOf(units, ds[0])).0;
      assert [ds[0]] + ds[1..] == ds;
      ReceiveRest(units, base, s', ds[0], ds[1..]);
    }
  }

  /** Then no schedule whatsoever can make the receiver emit anything else, however long the run. */
  lemma {:induction false} ChannelSafetyAnySchedule(units: seq<Unit>, base: nat, ds: seq<Delivery>)
    requires Sendable(units) && AllDeliverable(AsFrames(units), ds) && Distinguishable(AsFrames(units))
    ensures var outs := Receive(units, base, VS.Fresh(VS.H264Codec), ds);
            |outs| == |ds| && forall i | 0 <= i < |outs| :: GoodOutput(units, ds[i], outs[i])
  {
    DistinguishableUnaliased(AsFrames(units), ds);
    ChannelSafety(units, base, ds);
  }
}
