/** When nothing is lost: exactly which access units arrive whole. */
module H264Lossless {
  import opened Bytes
  import opened AnnexB
  import opened AnnexBRewrite
  import opened H264Depacketizer
  import opened H264Packets
  import opened H264Channel
  import VS = VideoStream

  // ---------------------------------------------------------------- bytes outside four-byte start codes

  function Count4(b: seq<byte>): nat {
    if |b| < 4 then 0 else Count4(b[..|b| - 1]) + if Code4(b, |b| - 4) then 1 else 0
  }

  /** The length of `b` less four for each four-byte start code in it. */
  function Weight(b: seq<byte>): int {
    |b| - 4 * Count4(b)
  }

  lemma {:induction false} Count4Grows(a: seq<byte>, b: seq<byte>)
    ensures Count4(a + b) >= Count4(a)
    decreases |b|
  {
    if b == [] {
      assert a + b == a;
    } else {
      assert (a + b)[..|a + b| - 1] == a + b[..|b| - 1];
      Count4Grows(a, b[..|b| - 1]);
    }
  }

  lemma {:induction false} WeightOfBytes(a: seq<byte>, b: seq<byte>)
    ensures Weight(a + b) <= Weight(a) + |b|
  {
    Count4Grows(a, b);
  }

  lemma {:induction false} WeightOfStartCode(a: seq<byte>)
    ensures Weight(a + START_CODE) <= Weight(a)
  {
    var f := a + START_CODE;
    assert f[..|f| - 1] == a + [0, 0, 0];
    assert Code4(f, |f| - 4);
    Count4Grows(a, [0, 0, 0]);
  }

  lemma {:induction false} Count4OfClean(a: seq<byte>, nal: seq<byte>)
    requires forall i: nat :: !Code3(nal, i)
    ensures Count4(a + START_CODE + nal) == Count4(a + START_CODE)
    decreases |nal|
  {
    var f := a + START_CODE + nal;
    if nal == [] {
      assert f == a + START_CODE;
    } else {
      var shorter := nal[..|nal| - 1];
      assert f[..|f| - 1] == a + START_CODE + shorter;
      assert forall i: nat :: Code3(shorter, i) ==> Code3(nal, i);
      Count4OfClean(a, shorter);
      assert f[|a| + 3] == 1;
      assert Code4(f, |f| - 4) && |nal| >= 3 ==> Code3(nal, |nal| - 3);
    }
  }

  lemma {:induction false} Count4OfZero(a: seq<byte>)
    ensures Count4(a + [0]) == Count4(a)
  {
    assert (a + [0])[..|a|] == a;
  }

  lemma {:induction false} Count4OfStartCode(a: seq<byte>)
    ensures Count4(a + START_CODE) <= Count4(a) + 1
  {
    Count4OfZero(a);
    Count4OfZero(a + [0]);
    Count4OfZero(a + [0] + [0]);
    var zeros := a + [0] + [0] + [0];
    assert a + START_CODE == zeros + [1];
    assert (zeros + [1])[..|zeros|] == zeros;
  }

  lemma {:induction false} JoinWeight(nals: seq<seq<byte>>)
    requires AllClean(nals)
    ensures |Join4(nals)| == 4 * |nals| + TotalBytes(nals)
    ensures Count4(Join4(nals)) <= |nals|
  {
    if nals != [] {
      var k := |nals| - 1;
      var init, nal := nals[..k], nals[k];
      JoinWeight(init);
      JoinSnoc(init, nal, 4, 4);
      TotalBytesSnoc(init, nal);
      assert init + [nal] == nals;
      Assoc(Join4(init), START_CODE, nal);
      assert Clean(nal);
      Count4OfClean(Join4(init), nal);
      Count4OfStartCode(Join4(init));
    }
  }

  lemma {:induction false} TotalBytesSnoc(nals: seq<seq<byte>>, nal: seq<byte>)
    ensures TotalBytes(nals + [nal]) == TotalBytes(nals) + |nal|
  {
    if nals == [] {
      assert [nal][1..] == [];
    } else {
      assert (nals + [nal])[1..] == nals[1..] + [nal];
      TotalBytesSnoc(nals[1..], nal);
    }
  }

  // ---------------------------------------------------------------- no packet adds more than it carries

  function Penalty(nal: seq<byte>): nat {
    if Carried(nal) then 0 else 1
  }

  /** The NAL bytes of a whole list, less one for every unit that does not survive the trip. */
  function Net(nals: seq<seq<byte>>): int {
    if nals == [] then 0 else Net(nals[..|nals| - 1]) + |nals[|nals| - 1]| - Penalty(nals[|nals| - 1])
  }

  /** The same, up to and including `slot`. */
  function NetUpTo(nals: seq<seq<byte>>, slot: Slot): int
    requires ValidSlot(nals, slot)
  {
    Net(nals[..slot.nal]) + SentUpTo(nals[slot.nal], slot.frag) - Penalty(nals[slot.nal])
  }

  lemma {:induction false} NetBounds(nals: seq<seq<byte>>)
    requires NonEmpty(nals)
    ensures 0 <= Net(nals) <= TotalBytes(nals)
    ensures (exists k :: 0 <= k < |nals| && !Carried(nals[k])) ==> Net(nals) < TotalBytes(nals)
  {
    if nals != [] {
      var k := |nals| - 1;
      NetBounds(nals[..k]);
      TotalBytesSnoc(nals[..k], nals[k]);
      assert nals[..k] + [nals[k]] == nals;
      if exists j :: 0 <= j < |nals| && !Carried(nals[j]) {
        var j :| 0 <= j < |nals| && !Carried(nals[j]);
        if j < k { assert !Carried(nals[..k][j]); }
      }
    }
  }

  lemma {:induction false} UnitWeight(s: State, nalu: seq<byte>)
    requires nalu != []
    ensures Weight(PushUnit(s, nalu).0.buffer) <= Max(Weight(s.buffer), 0) + |nalu|
  {
    AppendWeight(s.buffer, nalu);
  }

  lemma {:induction false} StapWeight(s: State, payload: seq<byte>, cursor: nat)
    requires cursor <= |payload|
    ensures Weight(PushStap(s, payload, cursor).0.buffer) <= Max(Weight(s.buffer), 0) + |payload| - cursor
    decreases |payload| - cursor
  {
    if cursor + 2 <= |payload| {
      var len := U16At(payload, cursor);
      var end := cursor + 2 + len;
      if len == 0 || end > |payload| {
        assert PushStap(s, payload, cursor).0.buffer == [];
      } else {
        var nalu := payload[cursor + 2..end];
        UnitWeight(s, nalu);
        var (s1, ok) := PushUnit(s, nalu);
        if ok {
          StapWeight(s1, payload, end);
          assert PushStap(s, payload, cursor) == PushStap(s1, payload, end);
        } else {
          assert PushStap(s, payload, cursor) == (s1, false);
        }
      }
    }
  }

  lemma {:induction false} AppendWeight(b: seq<byte>, nal: seq<byte>)
    ensures Weight(b + START_CODE + nal) <= Weight(b) + |nal|
  {
    WeightOfStartCode(b);
    WeightOfBytes(b + START_CODE, nal);
  }

  lemma {:induction false} FuWeight(s: State, payload: seq<byte>)
    requires payload != []
    ensures Weight(PushFu(s, payload).0.buffer) <= Max(Weight(s.buffer), 0) +
              if |payload| < 2 then 0 else if payload[1] >= 0x80 then |payload| - 1 else |payload| - 2
  {
    if |payload| >= 2 {
      var rest := payload[2..];
      if payload[1] >= 0x80 {
        var header := FuHeaderByte(payload[0], payload[1]);
        AppendWeight(s.buffer, [header]);
        WeightOfBytes(s.buffer + START_CODE + [header], rest);
      } else {
        WeightOfBytes(s.buffer, rest);
      }
    }
  }

  lemma {:induction false} SingleWeight(s: State, nal: seq<byte>)
    requires nal != []
    ensures 1 <= NalType(nal[0]) <= 23 ==> Weight(PushPayload(s, nal).0.buffer) <= Max(Weight(s.buffer), 0) + |nal|
    ensures !(1 <= NalType(nal[0]) <= 23) ==> Weight(PushPayload(s, nal).0.buffer) <= Max(Weight(s.buffer), 0) + |nal| - 1
  {
    var t := NalType(nal[0]);
    if 1 <= t <= 23 {
      AppendWeight(s.buffer, nal);
    } else if t == 24 {
      StapWeight(s, nal, 1);
    } else if t == 28 {
      FuWeight(s, nal);
    }
  }

  /** The NAL bytes that a fragment brings. */
  function Brought(nal: seq<byte>, frag: nat): int {
    SentUpTo(nal, frag) - (if frag == 0 then 0 else SentUpTo(nal, frag - 1))
  }

  /** Said of any payload with the fragment's bytes behind its two header bytes. */
  lemma {:induction false} PayloadBrings(nal: seq<byte>, frag: nat, payload: seq<byte>)
    requires HasFrag(nal, frag) && !Single(nal) && |payload| >= 2
    requires payload[2..] == nal[1 + MAX_FU_PAYLOAD * frag..SentUpTo(nal, frag)]
    ensures (if frag == 0 then |payload| - 1 else |payload| - 2) == Brought(nal, frag)
  {
    assert |payload| - 2 == SentUpTo(nal, frag) - (1 + MAX_FU_PAYLOAD * frag);
  }

  lemma {:induction false} FragmentWeight(s: State, nal: seq<byte>, frag: nat)
    requires HasFrag(nal, frag) && !Single(nal)
    ensures Weight(PushPayload(s, Payload(nal, frag)).0.buffer) <= Max(Weight(s.buffer), 0) + Brought(nal, frag)
  {
    FuHeaderParts(nal, frag);
    FuPacketWeight(s, nal, frag, Payload(nal, frag));
  }

  lemma {:induction false} FuPacketWeight(s: State, nal: seq<byte>, frag: nat, payload: seq<byte>)
    requires HasFrag(nal, frag) && !Single(nal) && |payload| >= 2
    requires NalType(payload[0]) == 28 && (payload[1] >= 0x80 <==> frag == 0)
    requires payload[2..] == nal[1 + MAX_FU_PAYLOAD * frag..SentUpTo(nal, frag)]
    ensures Weight(PushPayload(s, payload).0.buffer) <= Max(Weight(s.buffer), 0) + Brought(nal, frag)
  {
    PayloadBrings(nal, frag, payload);
    FuWeight(s, payload);
  }

  /** A packet adds at most the NAL bytes it carries, one less when its NAL unit is not carried. */
  lemma {:induction false} PayloadWeight(s: State, nal: seq<byte>, frag: nat)
    requires HasFrag(nal, frag)
    ensures Weight(PushPayload(s, Payload(nal, frag)).0.buffer)
            <= Max(Weight(s.buffer), 0) + SentUpTo(nal, frag) - (if frag == 0 then Penalty(nal) else SentUpTo(nal, frag - 1))
  {
    if Single(nal) {
      SingleWeight(s, nal);
    } else {
      FragmentWeight(s, nal, frag);
    }
  }

  // ---------------------------------------------------------------- a whole unit in order

  ghost function RunSlots(s: State, nals: seq<seq<byte>>, timestamp: u32, slots: seq<Slot>): (State, seq<Option<Frame>>)
    requires forall i | 0 <= i < |slots| :: ValidSlot(nals, slots[i])
  {
    Run(s, PacketsOf(nals, timestamp, slots))
  }

  lemma {:induction false} RunCons(s: State, nals: seq<seq<byte>>, timestamp: u32, slot: Slot)
    requires NonEmpty(nals) && ValidSlot(nals, slot)
    ensures Chained(nals, SlotsFrom(nals, slot))
    ensures var p := SlotPacket(nals, timestamp, slot);
            var (s1, out) := Push(s, p.timestamp, p.marker, p.payload);
            && (FinalSlot(nals, slot) ==>
                  SlotsFrom(nals, slot) == [slot] && RunSlots(s, nals, timestamp, SlotsFrom(nals, slot)) == (s1, [out]))
            && (!FinalSlot(nals, slot) ==>
                  var rest := SlotsFrom(nals, NextSlot(nals, slot));
                  && Chained(nals, rest)
                  && SlotsFrom(nals, slot) == [slot] + rest
                  && RunSlots(s, nals, timestamp, SlotsFrom(nals, slot))
                     == (RunSlots(s1, nals, timestamp, rest).0, [out] + RunSlots(s1, nals, timestamp, rest).1))
  {
    SlotsFromChained(nals, slot);
    var slots := SlotsFrom(nals, slot);
    var packets := PacketsOf(nals, timestamp, slots);
    assert packets[0] == SlotPacket(nals, timestamp, slot);
    if !FinalSlot(nals, slot) {
      SlotsFromChained(nals, NextSlot(nals, slot));
      var rest := SlotsFrom(nals, NextSlot(nals, slot));
      assert slots == [slot] + rest;
      assert packets[1..] == PacketsOf(nals, timestamp, rest);
    } else {
      assert packets == [SlotPacket(nals, timestamp, slot)];
      RunOne(s, packets[0]);
    }
  }

  lemma {:induction false} RunOne(s: State, p: Packet)
    ensures var (s1, out) := Push(s, p.timestamp, p.marker, p.payload);
            Run(s, [p]) == (s1, [out])
  {
    assert [p][1..] == [];
    var (s1, out) := Push(s, p.timestamp, p.marker, p.payload);
    assert [out] + [] == [out];
  }

  lemma {:induction false} OnlyAtEndCons(outs: seq<Option<Frame>>)
    requires outs != [] && VS.OnlyAtEnd(outs, outs[|outs| - 1])
    ensures VS.OnlyAtEnd([None] + outs, outs[|outs| - 1])
  {
  }

  /** `NetUpTo` before the packet of `slot`. */
  function NetBefore(nals: seq<seq<byte>>, slot: Slot): int
    requires ValidSlot(nals, slot)
  {
    if slot.frag == 0 then Net(nals[..slot.nal])
    else Net(nals[..slot.nal]) + SentUpTo(nals[slot.nal], slot.frag - 1) - Penalty(nals[slot.nal])
  }

  lemma {:induction false} NetNext(nals: seq<seq<byte>>, slot: Slot)
    requires NonEmpty(nals) && ValidSlot(nals, slot)
    ensures 0 <= NetBefore(nals, slot) <= NetUpTo(nals, slot)
    ensures FinalSlot(nals, slot) ==> NetUpTo(nals, slot) == Net(nals)
    ensures !FinalSlot(nals, slot) ==> NetUpTo(nals, slot) == NetBefore(nals, NextSlot(nals, slot))
  {
    NetBounds(nals[..slot.nal]);
    if LastFrag(nals[slot.nal], slot.frag) {
      assert nals[..slot.nal + 1][..slot.nal] == nals[..slot.nal];
      assert FinalSlot(nals, slot) ==> nals[..slot.nal + 1] == nals;
    }
  }

  lemma {:induction false} PushWeight(s: State, nals: seq<seq<byte>>, timestamp: u32, slot: Slot)
    requires NonEmpty(nals) && ValidSlot(nals, slot)
    requires Weight(PrepareTimestamp(s, timestamp).buffer) <= NetBefore(nals, slot)
    ensures var p := SlotPacket(nals, timestamp, slot);
            var (s1, out) := Push(s, p.timestamp, p.marker, p.payload);
            && Weight(PrepareTimestamp(s1, timestamp).buffer) <= NetUpTo(nals, slot)
            && (out.Some? ==> FinalSlot(nals, slot) && Weight(out.value.bytes) <= NetUpTo(nals, slot))
  {
    NetNext(nals, slot);
    PayloadWeight(PrepareTimestamp(s, timestamp), nals[slot.nal], slot.frag);
  }

  /** Only the last packet of a unit can complete a frame, and what it completes weighs no more than was sent. */
  lemma {:induction false} RunWeight(s: State, nals: seq<seq<byte>>, timestamp: u32, slot: Slot)
    requires NonEmpty(nals) && ValidSlot(nals, slot)
    requires Weight(PrepareTimestamp(s, timestamp).buffer) <= NetBefore(nals, slot)
    ensures Chained(nals, SlotsFrom(nals, slot))
    ensures var outs := RunSlots(s, nals, timestamp, SlotsFrom(nals, slot)).1;
            && outs != []
            && VS.OnlyAtEnd(outs, outs[|outs| - 1])
            && (outs[|outs| - 1].Some? ==> Weight(outs[|outs| - 1].value.bytes) <= Net(nals))
    decreases |nals| - slot.nal, BytesLeft(nals, slot)
  {
    RunCons(s, nals, timestamp, slot);
    PushWeight(s, nals, timestamp, slot);
    NetNext(nals, slot);
    var p := SlotPacket(nals, timestamp, slot);
    var (s1, out) := Push(s, p.timestamp, p.marker, p.payload);
    var outs := RunSlots(s, nals, timestamp, SlotsFrom(nals, slot)).1;
    if FinalSlot(nals, slot) {
      assert outs == [out];
    } else {
      NextSlotShrinks(nals, slot);
      RunWeight(s1, nals, timestamp, NextSlot(nals, slot));
      var rest := RunSlots(s1, nals, timestamp, SlotsFrom(nals, NextSlot(nals, slot))).1;
      OnlyAtEndCons(rest);
      assert outs == [None] + rest;
    }
  }

  // ---------------------------------------------------------------- which units arrive

  /** Everything a unit needs to arrive whole. */
  ghost predicate Deliverable4(nals: seq<seq<byte>>) {
    (forall k | 0 <= k < |nals| :: Carried(nals[k])) && |Join4(nals)| <= MAX_VIDEO_FRAME_BYTES
  }

  ghost function WholeFrame(nals: seq<seq<byte>>): Frame {
    Frame(Join4(nals), HasNalType(Join4(nals), 5))
  }

  lemma {:induction false} JoinPrefixLength(nals: seq<seq<byte>>, m: nat)
    requires m < |nals|
    ensures |Join4(nals[..m])| + 4 + |nals[m]| <= |Join4(nals)|
    decreases |nals|
  {
    var k := |nals| - 1;
    JoinTake(nals, k, 4, 4);
    assert nals[..k + 1] == nals;
    if m < k {
      JoinPrefixLength(nals[..k], m);
      assert nals[..k][..m] == nals[..m];
    }
  }

  lemma {:induction false} RunFromHolding(s: State, nals: seq<seq<byte>>, timestamp: u32, slot: Slot)
    requires NonEmpty(nals) && Deliverable4(nals) && Valid(s)
    requires ValidSlot(nals, slot) && !FinalSlot(nals, slot) && Holding(s, nals, timestamp, 0, slot)
    ensures var next := NextSlot(nals, slot);
            && Chained(nals, SlotsFrom(nals, next))
            && VS.OnlyAtEnd(RunSlots(s, nals, timestamp, SlotsFrom(nals, next)).1, Some(WholeFrame(nals)))
    decreases |nals| - slot.nal, BytesLeft(nals, slot)
  {
    var next := NextSlot(nals, slot);
    RunCons(s, nals, timestamp, next);
    StepFromHolding(s, nals, timestamp, 0, slot);
    JoinPrefixLength(nals, next.nal);
    assert nals[0..next.nal] == nals[..next.nal] && nals[0..] == nals;
    var p := SlotPacket(nals, timestamp, next);
    PushKeepsValid(s, p.timestamp, p.marker, p.payload);
    var (s1, out) := Push(s, p.timestamp, p.marker, p.payload);
    var outs := RunSlots(s, nals, timestamp, SlotsFrom(nals, next)).1;
    if FinalSlot(nals, next) {
      assert out == Some(WholeFrame(nals)) && outs == [out];
    } else {
      NextSlotShrinks(nals, slot);
      RunFromHolding(s1, nals, timestamp, next);
      var rest := RunSlots(s1, nals, timestamp, SlotsFrom(nals, NextSlot(nals, next))).1;
      OnlyAtEndCons(rest);
      assert outs == [None] + rest;
    }
  }

  lemma {:induction false} RunWhole(s: State, nals: seq<seq<byte>>, timestamp: u32)
    requires NonEmpty(nals) && nals != [] && Deliverable4(nals) && Valid(s) && Idle(s)
    ensures Chained(nals, Slots(nals))
    ensures VS.OnlyAtEnd(RunSlots(s, nals, timestamp, Slots(nals)).1, Some(WholeFrame(nals)))
  {
    var first := Slot(0, 0);
    RunCons(s, nals, timestamp, first);
    StepFromIdle(s, nals, timestamp, first);
    assert nals[0..] == nals;
    var p := SlotPacket(nals, timestamp, first);
    PushKeepsValid(s, p.timestamp, p.marker, p.payload);
    var (s1, out) := Push(s, p.timestamp, p.marker, p.payload);
    var outs := RunSlots(s, nals, timestamp, Slots(nals)).1;
    if FinalSlot(nals, first) {
      assert outs == [out];
    } else {
      RunFromHolding(s1, nals, timestamp, first);
      var rest := RunSlots(s1, nals, timestamp, SlotsFrom(nals, NextSlot(nals, first))).1;
      OnlyAtEndCons(rest);
      assert outs == [None] + rest;
    }
  }

  /** A state in which packets of `timestamp` start a frame of their own. */
  predicate ReadyFor(s: State, timestamp: u32) {
    Idle(s) || s.timestamp != Some(timestamp)
  }

  lemma {:induction false} RunFromOtherTimestamp(s: State, nals: seq<seq<byte>>, timestamp: u32)
    requires NonEmpty(nals) && nals != [] && s.timestamp != Some(timestamp)
    ensures Chained(nals, Slots(nals))
    ensures RunSlots(s, nals, timestamp, Slots(nals)) == RunSlots(Reset(s), nals, timestamp, Slots(nals))
  {
    RunCons(s, nals, timestamp, Slot(0, 0));
    RunCons(Reset(s), nals, timestamp, Slot(0, 0));
    PacketPayloadNonEmpty(nals, timestamp, Slot(0, 0));
    OtherTimestamp(s, SlotPacket(nals, timestamp, Slot(0, 0)));
  }

  /** An access unit whose packets all arrive in order is emitted with its last packet, whole and alone,
      exactly when each of its NAL units can be carried and the joined frame fits the receiver's bound. */
  lemma {:induction false} UnitArrivesIff(s: State, nals: seq<seq<byte>>, timestamp: u32)
    requires nals != [] && AllClean(nals) && Valid(s) && ReadyFor(s, timestamp)
    ensures NonEmpty(nals) && Chained(nals, Slots(nals))
    ensures VS.OnlyAtEnd(RunSlots(s, nals, timestamp, Slots(nals)).1, Some(WholeFrame(nals))) <==> Deliverable4(nals)
  {
    assert NonEmpty(nals) by { forall k | 0 <= k < |nals| ensures nals[k] != [] { assert Clean(nals[k]); } }
    if s.timestamp != Some(timestamp) {
      RunFromOtherTimestamp(s, nals, timestamp);
      UnitArrivesFromIdle(Reset(s), nals, timestamp);
    } else {
      UnitArrivesFromIdle(s, nals, timestamp);
    }
  }

  lemma {:induction false} UnitArrivesFromIdle(s: State, nals: seq<seq<byte>>, timestamp: u32)
    requires nals != [] && AllClean(nals) && NonEmpty(nals) && Valid(s) && Idle(s)
    ensures Chained(nals, Slots(nals))
    ensures VS.OnlyAtEnd(RunSlots(s, nals, timestamp, Slots(nals)).1, Some(WholeFrame(nals))) <==> Deliverable4(nals)
  {
    if Deliverable4(nals) {
      RunWhole(s, nals, timestamp);
    }
    assert nals[..0] == [];
    RunWeight(s, nals, timestamp, Slot(0, 0));
    var outs := RunSlots(s, nals, timestamp, Slots(nals)).1;
    if VS.OnlyAtEnd(outs, Some(WholeFrame(nals))) {
      RunKeepsValid(s, PacketsOf(nals, timestamp, Slots(nals)));
      JoinWeight(nals);
      NetBounds(nals);
    }
  }

  /** A failing input: a single NAL unit of type 24 is sent as it is and does not arrive. */
  lemma {:induction false} UncarriedUnitIsLost()
    ensures var nals: seq<seq<byte>> := [[24]];
            && NonEmpty(nals) && Chained(nals, Slots(nals))
            && !VS.OnlyAtEnd(RunSlots(INITIAL, nals, 0, Slots(nals)).1, Some(WholeFrame(nals)))
  {
    var nals: seq<seq<byte>> := [[24]];
    assert Clean(nals[0]) && !Carried(nals[0]);
    UnitArrivesIff(INITIAL, nals, 0);
  }

  // ---------------------------------------------------------------- a run of units

  /** Packets arriving in order under consecutive sequence numbers from `q` on. */
  ghost function InOrder(s: VS.State, q: nat, packets: seq<Packet>): (VS.State, seq<Option<Frame>>)
    decreases |packets|
  {
    if packets == [] then (s, [])
    else
      var (s1, out) := VS.Push(s, q % 0x1_0000, packets[0]);
      var (s2, outs) := InOrder(s1, q + 1, packets[1..]);
      (s2, [out] + outs)
  }

  /** The stream's next sequence number is `q`, or it has seen none. */
  predicate Expects(s: VS.State, q: nat) {
    s.lastSequence.Some? ==> VS.NextSequence(s.lastSequence.value) == q % 0x1_0000
  }

  lemma {:induction false} InOrderIsRun(s: VS.State, q: nat, packets: seq<Packet>)
    requires s.codec == VS.H264Codec && Expects(s, q)
    ensures var (s', outs) := InOrder(s, q, packets);
            && (s'.h264, outs) == Run(s.h264, packets)
            && s'.codec == VS.H264Codec
            && Expects(s', q + |packets|)
    decreases |packets|
  {
    if packets != [] {
      var s1 := VS.Push(s, q % 0x1_0000, packets[0]).0;
      InOrderIsRun(s1, q + 1, packets[1..]);
    }
  }

  function UnitPackets(u: Unit): seq<Packet>
    requires NonEmpty(u.nals) && Chained(u.nals, Slots(u.nals))
  {
    PacketsOf(u.nals, u.timestamp, Slots(u.nals))
  }

  lemma {:induction false} PushTimestamp(s: State, p: Packet)
    requires p.payload != []
    ensures Push(s, p.timestamp, p.marker, p.payload).0.timestamp in {None, Some(p.timestamp)}
  {
    if NalType(p.payload[0]) == 24 {
      StapTimestamp(PrepareTimestamp(s, p.timestamp), p.payload, 1);
    }
  }

  lemma {:induction false} StapTimestamp(s: State, payload: seq<byte>, cursor: nat)
    ensures PushStap(s, payload, cursor).0.timestamp in {None, s.timestamp}
    decreases |payload| - cursor
  {
    if cursor + 2 <= |payload| {
      var len := U16At(payload, cursor);
      var from := cursor + 2;
      if 0 < len && from + len <= |payload| {
        StapTimestamp(PushUnit(s, payload[from..from + len]).0, payload, from + len);
      }
    }
  }

  lemma {:induction false} RunTimestamp(s: State, packets: seq<Packet>, timestamp: u32)
    requires packets != []
    requires forall i | 0 <= i < |packets| :: packets[i].timestamp == timestamp && packets[i].payload != []
    ensures Run(s, packets).0.timestamp in {None, Some(timestamp)}
    decreases |packets|
  {
    PushTimestamp(s, packets[0]);
    var s1 := Push(s, timestamp, packets[0].marker, packets[0].payload).0;
    if |packets| > 1 {
      RunTimestamp(s1, packets[1..], timestamp);
    } else {
      assert packets[1..] == [];
    }
  }

  ghost predicate CleanUnit(u: Unit) {
    u.nals != [] && AllClean(u.nals) && NonEmpty(u.nals) && Chained(u.nals, Slots(u.nals))
  }

  /** What a unit under this timestamp leaves behind when the next sequence number is `q`. */
  ghost predicate Leaves(s: VS.State, q: nat, timestamp: u32) {
    s.codec == VS.H264Codec && Expects(s, q) && Valid(s.h264) && s.h264.timestamp in {None, Some(timestamp)}
  }

  lemma {:induction false} UnitPacketsCarry(u: Unit)
    requires CleanUnit(u)
    ensures UnitPackets(u) != []
    ensures forall i | 0 <= i < |UnitPackets(u)| :: UnitPackets(u)[i].timestamp == u.timestamp && UnitPackets(u)[i].payload != []
  {
    SlotsFromChained(u.nals, Slot(0, 0));
    forall i | 0 <= i < |UnitPackets(u)| ensures UnitPackets(u)[i].timestamp == u.timestamp && UnitPackets(u)[i].payload != [] {
      PacketPayloadNonEmpty(u.nals, u.timestamp, Slots(u.nals)[i]);
    }
  }

  lemma {:induction false} UnitLeaves(s: VS.State, q: nat, u: Unit)
    requires CleanUnit(u)
    requires s.codec == VS.H264Codec && Expects(s, q) && Valid(s.h264)
    ensures Leaves(InOrder(s, q, UnitPackets(u)).0, q + |UnitPackets(u)|, u.timestamp)
  {
    UnitPacketsCarry(u);
    PacketsLeave(s, q, UnitPackets(u), u.timestamp);
  }

  lemma {:induction false} PacketsLeave(s: VS.State, q: nat, packets: seq<Packet>, timestamp: u32)
    requires s.codec == VS.H264Codec && Expects(s, q) && Valid(s.h264) && packets != []
    requires forall i | 0 <= i < |packets| :: packets[i].timestamp == timestamp && packets[i].payload != []
    ensures Leaves(InOrder(s, q, packets).0, q + |packets|, timestamp)
  {
    InOrderIsRun(s, q, packets);
    RunKeepsValid(s.h264, packets);
    RunTimestamp(s.h264, packets, timestamp);
  }

  /** A unit in a run, and what it leaves for the next. */
  lemma {:induction false} LosslessUnit(s: VS.State, q: nat, u: Unit)
    requires CleanUnit(u)
    requires s.codec == VS.H264Codec && Expects(s, q) && Valid(s.h264) && ReadyFor(s.h264, u.timestamp)
    ensures VS.OnlyAtEnd(InOrder(s, q, UnitPackets(u)).1, Some(WholeFrame(u.nals))) <==> Deliverable4(u.nals)
    ensures Leaves(InOrder(s, q, UnitPackets(u)).0, q + |UnitPackets(u)|, u.timestamp)
  {
    UnitLeaves(s, q, u);
    InOrderIsRun(s, q, UnitPackets(u));
    UnitArrivesIff(s.h264, u.nals, u.timestamp);
  }

  // ---------------------------------------------------------------- whatever came before

  lemma {:induction false} PushAllKeepsValid(s: VS.State, arrivals: seq<VS.Numbered>)
    requires s.codec == VS.H264Codec && Valid(s.h264)
    ensures var s' := VS.PushAll(s, arrivals).0; s'.codec == VS.H264Codec && Valid(s'.h264)
    decreases |arrivals|
  {
    if arrivals != [] {
      var (q, p) := (arrivals[0].sequence, arrivals[0].packet);
      PushKeepsValid(VS.Accept(s, q).h264, p.timestamp, p.marker, p.payload);
      PushAllKeepsValid(VS.Push(s, q, p).0, arrivals[1..]);
    }
  }

  predicate Gap(s: VS.State, q: nat) {
    s.lastSequence.Some? && VS.NextSequence(s.lastSequence.value) != q % 0x1_0000
  }

  /** What the gap detector keeps, without the number it compares with. */
  function Restarted(s: VS.State, q: nat): VS.State {
    VS.Accept(s, q % 0x1_0000).(lastSequence := None)
  }

  lemma {:induction false} InOrderRestarted(s: VS.State, q: nat, packets: seq<Packet>)
    requires packets != []
    ensures InOrder(s, q, packets) == InOrder(Restarted(s, q), q, packets)
  {
    assert VS.Push(s, q % 0x1_0000, packets[0]) == VS.Push(Restarted(s, q), q % 0x1_0000, packets[0]);
  }

  /** Liveness: after any packets whatsoever, an access unit whose packets then arrive in order is emitted with
      its last packet, whole, exactly when it can be carried and fits, provided it comes after a gap, under
      another timestamp, or when nothing is in progress. */
  lemma {:induction false} LiveAfterAnyRun(arrivals: seq<VS.Numbered>, q: nat, u: Unit)
    requires CleanUnit(u)
    requires var s := VS.PushAll(VS.Fresh(VS.H264Codec), arrivals).0; Gap(s, q) || ReadyFor(s.h264, u.timestamp)
    ensures var s := VS.PushAll(VS.Fresh(VS.H264Codec), arrivals).0;
            VS.OnlyAtEnd(InOrder(s, q, UnitPackets(u)).1, Some(WholeFrame(u.nals))) <==> Deliverable4(u.nals)
  {
    var s := VS.PushAll(VS.Fresh(VS.H264Codec), arrivals).0;
    PushAllKeepsValid(VS.Fresh(VS.H264Codec), arrivals);
    SlotsFromChained(u.nals, Slot(0, 0));
    InOrderRestarted(s, q, UnitPackets(u));
    LosslessUnit(Restarted(s, q), q, u);
  }

  // ---------------------------------------------------------------- one unit after another

  /** An H.264 stream whose next sequence number is `q`. */
  predicate InOrderSoFar(s: VS.State, q: nat) {
    s.codec == VS.H264Codec && Expects(s, q)
  }

  ghost predicate Awaits(s: VS.State, q: nat, timestamp: u32) {
    InOrderSoFar(s, q) && Valid(s.h264) && ReadyFor(s.h264, timestamp)
  }

  lemma {:induction false} LeftAwaits(s: VS.State, q: nat, before: u32, timestamp: u32)
    requires Leaves(s, q, before) && before != timestamp
    ensures Awaits(s, q, timestamp)
  {
  }
}
