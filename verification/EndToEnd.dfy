/** From an access unit through the wire to the frame a receiver emits. */
module EndToEnd {
  import opened Bytes
  import opened AnnexB
  import opened AnnexBRewrite
  import opened H264Depacketizer
  import opened H264Packets
  import opened Rtp
  import opened Transport
  import opened H264Sender
  import opened Channel
  import L = H264Lossless
  import C = H264Channel
  import VS = VideoStream

  // ---------------------------------------------------------------- datagrams in, datagrams out

  /** How a datagram is read, and how a packet becomes one. */
  type Reader = seq<byte> -> Option<Received>
  type Maker = (Numbers, Packet) -> seq<byte>

  function ReaderOf(c: Aead): Reader {
    datagram => ReceivePacket(c, datagram)
  }

  function MakerOf(c: Aead, ssrc: u32): Maker {
    (at, p) => WirePacket(c, H264_PT, ssrc, at, p)
  }

  /** One datagram for one video stream; a packet that cannot be decoded is skipped. */
  ghost function ReceiveOne(read: Reader, s: VS.State, datagram: seq<byte>): (VS.State, Option<Frame>) {
    match read(datagram)
    case None => (s, None)
    case Some(r) => VS.Push(s, r.sequence, Packet(r.timestamp, r.marker, r.payload))
  }

  ghost function ReceiveAll(read: Reader, s: VS.State, wire: seq<seq<byte>>): (VS.State, seq<Option<Frame>>)
    decreases |wire|
  {
    if wire == [] then (s, [])
    else
      var (s1, out) := ReceiveOne(read, s, wire[0]);
      var (s2, outs) := ReceiveAll(read, s1, wire[1..]);
      (s2, [out] + outs)
  }

  ghost function ReceiveWire(c: Aead, s: VS.State, wire: seq<seq<byte>>): (VS.State, seq<Option<Frame>>) {
    ReceiveAll(ReaderOf(c), s, wire)
  }

  /** The sender's packet as one of the packets the receive path is proved for. */
  function AsMedia(ssrc: u32, at: Numbers, p: Packet): Media {
    Media(H264_PT as int, p.marker, at.sequence % 0x1_0000, p.timestamp, ssrc, [],
          Some(Transport.Extension(0xbede, 1, EXTENSION_PAYLOAD)), None, p.payload)
  }

  lemma {:induction false} WireIsMedia(c: Aead, ssrc: u32, at: Numbers, p: Packet)
    ensures ValidMedia(AsMedia(ssrc, at, p))
    ensures WirePacket(c, H264_PT, ssrc, at, p) == OnWire(c, at.nonce % 0x1_0000_0000, AsMedia(ssrc, at, p))
  {
    var m := AsMedia(ssrc, at, p);
    assert U16Bytes(0xbede) + U16Bytes(1) == EXTENSION_HEADER;
    assert Clear(m) == FixedPart(m) + EXTENSION_HEADER;
    assert Hidden(m) == EXTENSION_PAYLOAD + p.payload;
  }

  lemma {:induction false} WirePacketReceived(c: Aead, ssrc: u32, at: Numbers, p: Packet)
    requires Lawful(c) && p.payload != []
    ensures ReceivePacket(c, WirePacket(c, H264_PT, ssrc, at, p)) ==
            Some(Received(103, at.sequence % 0x1_0000, p.timestamp, ssrc, p.marker, p.payload))
  {
    WireIsMedia(c, ssrc, at, p);
    ReceiveInverts(c, at.nonce % 0x1_0000_0000, AsMedia(ssrc, at, p));
  }

  // ---------------------------------------------------------------- datagrams are packets

  /** The datagram is read as this packet. */
  ghost predicate Carries(read: Reader, datagram: seq<byte>, n: VS.Numbered) {
    var r := read(datagram);
    r.Some? && r.value.sequence == n.sequence && Packet(r.value.timestamp, r.value.marker, r.value.payload) == n.packet
  }

  /** Whatever packet is made into a datagram is read from it again. */
  ghost predicate Faithful(make: Maker, read: Reader) {
    forall at, p: Packet | p.payload != [] :: Carries(read, make(at, p), VS.Numbered(at.sequence % 0x1_0000, p))
  }

  lemma {:induction false} WireIsFaithful(c: Aead, ssrc: u32)
    requires Lawful(c)
    ensures Faithful(MakerOf(c, ssrc), ReaderOf(c))
  {
    forall at, p: Packet | p.payload != []
      ensures Carries(ReaderOf(c), MakerOf(c, ssrc)(at, p), VS.Numbered(at.sequence % 0x1_0000, p))
    {
      WirePacketReceived(c, ssrc, at, p);
    }
  }

  lemma {:induction false} ReceiveCons(read: Reader, s: VS.State, datagram: seq<byte>, rest: seq<seq<byte>>, n: VS.Numbered)
    requires Carries(read, datagram, n)
    ensures var (s1, out) := VS.Push(s, n.sequence, n.packet);
            ReceiveAll(read, s, [datagram] + rest) == (ReceiveAll(read, s1, rest).0, [out] + ReceiveAll(read, s1, rest).1)
  {
    assert ([datagram] + rest)[1..] == rest;
  }

  /** Packets made under consecutive numbers. */
  function Made(make: Maker, at: Numbers, packets: seq<Packet>): seq<seq<byte>>
    decreases |packets|
  {
    if packets == [] then [] else [make(at, packets[0])] + Made(make, Advance(at, 1), packets[1..])
  }

  lemma {:induction false} MadeIsReceived(make: Maker, read: Reader, s: VS.State, at: Numbers, packets: seq<Packet>)
    requires Faithful(make, read) && forall i | 0 <= i < |packets| :: packets[i].payload != []
    ensures ReceiveAll(read, s, Made(make, at, packets)) == L.InOrder(s, at.sequence, packets)
    decreases |packets|
  {
    if packets != [] {
      var n := VS.Numbered(at.sequence % 0x1_0000, packets[0]);
      MadeIsReceived(make, read, VS.Push(s, n.sequence, n.packet).0, Advance(at, 1), packets[1..]);
      ReceiveCons(read, s, make(at, packets[0]), Made(make, Advance(at, 1), packets[1..]), n);
    }
  }

  lemma {:induction false} WireIsMade(c: Aead, ssrc: u32, at: Numbers, packets: seq<Packet>)
    ensures Wire(c, H264_PT, ssrc, at, packets) == Made(MakerOf(c, ssrc), at, packets)
    decreases |packets|
  {
    if packets != [] {
      WireIsMade(c, ssrc, Advance(at, 1), packets[1..]);
      WireTail(c, ssrc, at, packets);
    }
  }

  lemma {:induction false} WireTail(c: Aead, ssrc: u32, at: Numbers, packets: seq<Packet>)
    requires packets != []
    ensures Wire(c, H264_PT, ssrc, at, packets) ==
            [WirePacket(c, H264_PT, ssrc, at, packets[0])] + Wire(c, H264_PT, ssrc, Advance(at, 1), packets[1..])
  {
    assert Advance(at, 0) == at;
    assert forall i: nat :: Advance(Advance(at, 1), i) == Advance(at, i + 1);
  }

  /** Encryption and RTP framing are transparent: the receiver sees the packets as packetized. */
  lemma {:induction false} WireIsTransparent(c: Aead, s: VS.State, ssrc: u32, at: Numbers, packets: seq<Packet>)
    requires Lawful(c) && forall i | 0 <= i < |packets| :: packets[i].payload != []
    ensures ReceiveWire(c, s, Wire(c, H264_PT, ssrc, at, packets)) == L.InOrder(s, at.sequence, packets)
  {
    WireIsFaithful(c, ssrc);
    WireIsMade(c, ssrc, at, packets);
    MadeIsReceived(MakerOf(c, ssrc), ReaderOf(c), s, at, packets);
  }

  // ---------------------------------------------------------------- a lossy wire

  /** The datagrams of those packets, when the sender's counters stood at `at` before its first. */
  ghost function Datagrams(make: Maker, at: Numbers, units: seq<C.Unit>, ds: seq<Delivery>): seq<seq<byte>>
    requires C.Sendable(units) && AllDeliverable(C.AsFrames(units), ds)
  {
    if ds == [] then []
    else [make(Advance(at, Position(C.AsFrames(units), ds[0])), C.PacketOf(units, ds[0]))] + Datagrams(make, at, units, ds[1..])
  }

  ghost function Numbered(at: Numbers, units: seq<C.Unit>, d: Delivery): VS.Numbered
    requires C.Sendable(units) && Deliverable(C.AsFrames(units), d)
  {
    VS.Numbered(SequenceOf(C.AsFrames(units), at.sequence, d), C.PacketOf(units, d))
  }

  lemma {:induction false} DatagramCarries(make: Maker, read: Reader, at: Numbers, units: seq<C.Unit>, d: Delivery)
    requires Faithful(make, read) && C.Sendable(units) && Deliverable(C.AsFrames(units), d)
    ensures Carries(read, make(Advance(at, Position(C.AsFrames(units), d)), C.PacketOf(units, d)), Numbered(at, units, d))
  {
    C.PacketPayloadNonEmpty(units[d.unit].nals, units[d.unit].timestamp, C.SlotOf(units, d));
  }

  lemma {:induction false} DatagramsAreReceived(make: Maker, read: Reader, at: Numbers, units: seq<C.Unit>, s: VS.State, ds: seq<Delivery>)
    requires Faithful(make, read) && C.Sendable(units) && AllDeliverable(C.AsFrames(units), ds)
    ensures ReceiveAll(read, s, Datagrams(make, at, units, ds)).1 == C.Receive(units, at.sequence, s, ds)
    decreases |ds|
  {
    if ds != [] {
      var n := Numbered(at, units, ds[0]);
      DatagramsAreReceived(make, read, at, units, VS.Push(s, n.sequence, n.packet).0, ds[1..]);
      DatagramCarries(make, read, at, units, ds[0]);
      ReceiveCons(read, s, make(Advance(at, Position(C.AsFrames(units), ds[0])), n.packet), Datagrams(make, at, units, ds[1..]), n);
    }
  }

  /** Safety on the wire: whatever datagrams of the sender arrive, how often and in which order, every emitted
      frame is the join of a suffix of one access unit's NAL units, truly flagged. */
  lemma {:induction false} WireSafety(c: Aead, ssrc: u32, at: Numbers, units: seq<C.Unit>, ds: seq<Delivery>)
    requires Lawful(c) && C.Sendable(units)
    requires AllDeliverable(C.AsFrames(units), ds) && Unaliased(C.AsFrames(units), ds)
    ensures var outs := ReceiveWire(c, VS.Fresh(VS.H264Codec), Datagrams(MakerOf(c, ssrc), at, units, ds)).1;
            |outs| == |ds| && forall i | 0 <= i < |outs| :: C.GoodOutput(units, ds[i], outs[i])
  {
    WireIsFaithful(c, ssrc);
    DatagramsAreReceived(MakerOf(c, ssrc), ReaderOf(c), at, units, VS.Fresh(VS.H264Codec), ds);
    C.ChannelSafety(units, at.sequence, ds);
  }

  // ---------------------------------------------------------------- a lossless wire

  /** The access unit `f`, sent with any counters and received in order: nothing comes out before its last
      packet, and then its four-byte rewrite, exactly when every NAL unit can be carried and it fits. */
  lemma {:induction false} AccessUnitRoundTrip(c: Aead, f: seq<byte>, ssrc: u32, timestamp: u32, at: Numbers, s: VS.State)
    requires Lawful(c) && Nals(f) != []
    requires s.codec == VS.H264Codec && Valid(s.h264)
    requires L.Expects(s, at.sequence) && L.ReadyFor(s.h264, timestamp)
    ensures NonEmpty(Nals(f)) && Chained(Nals(f), Slots(Nals(f)))
    ensures Rewrite(f, 4, 4).Some?
    ensures var whole := Rewrite(f, 4, 4).value;
            var outs := ReceiveWire(c, s, Wire(c, H264_PT, ssrc, at, PacketsOf(Nals(f), timestamp, Slots(Nals(f))))).1;
            VS.OnlyAtEnd(outs, Some(Frame(whole, HasNalType(whole, 5)))) <==>
            (forall k | 0 <= k < |Nals(f)| :: Carried(Nals(f)[k])) && |whole| <= MAX_VIDEO_FRAME_BYTES
  {
    var nals := Nals(f);
    JoinSplit4(f);
    L.UnitArrivesIff(s.h264, nals, timestamp);
    var packets := PacketsOf(nals, timestamp, Slots(nals));
    forall i | 0 <= i < |packets| ensures packets[i].payload != [] {
      C.PacketPayloadNonEmpty(nals, timestamp, Slots(nals)[i]);
    }
    WireIsTransparent(c, s, ssrc, at, packets);
    L.InOrderIsRun(s, at.sequence, packets);
  }

  // ---------------------------------------------------------------- a whole stream

  /** A frame handed to the sender and the timestamp it goes out under. */
  datatype Outgoing = Outgoing(frame: seq<byte>, timestamp: u32)

  /** What the sender accepts: every frame has a NAL unit, and since the increment is at least one, no two
      frames in a row have the same timestamp. */
  ghost predicate Stream(fs: seq<Outgoing>) {
    && (forall k | 0 <= k < |fs| :: Nals(fs[k].frame) != [])
    && (forall k | 0 <= k < |fs| - 1 :: fs[k].timestamp != fs[k + 1].timestamp)
  }

  function UnitOf(x: Outgoing): C.Unit {
    C.Unit(x.timestamp, Nals(x.frame))
  }

  lemma {:induction false} FrameIsClean(x: Outgoing)
    requires Nals(x.frame) != []
    ensures L.CleanUnit(UnitOf(x))
  {
    JoinSplit4(x.frame);
    assert NonEmpty(Nals(x.frame)) by {
      forall k | 0 <= k < |Nals(x.frame)| ensures Nals(x.frame)[k] != [] { assert Clean(Nals(x.frame)[k]); }
    }
    SlotsFromChained(Nals(x.frame), Slot(0, 0));
  }

  ghost function FramePackets(x: Outgoing): seq<Packet>
    requires Nals(x.frame) != []
  {
    FrameIsClean(x);
    L.UnitPackets(UnitOf(x))
  }

  /** One frame sent and received packet by packet. */
  ghost function SendAndReceive(make: Maker, read: Reader, s: VS.State, at: Numbers, x: Outgoing): (VS.State, seq<Option<Frame>>)
    requires Nals(x.frame) != []
  {
    ReceiveAll(read, s, Made(make, at, FramePackets(x)))
  }

  /** Where the receiver and the sender's counters stand. */
  datatype Stage = Stage(receiver: VS.State, at: Numbers)

  /** One frame sent and received; a frame that is refused leaves everything as it is. */
  ghost function AfterFrame(make: Maker, read: Reader): (Stage, Outgoing) -> Stage {
    (g: Stage, x: Outgoing) =>
      if Nals(x.frame) == [] then g
      else Stage(SendAndReceive(make, read, g.receiver, g.at, x).0, Advance(g.at, |FramePackets(x)|))
  }

  /** Where they stand when frame `k` begins. */
  ghost function Standing(step: (Stage, Outgoing) -> Stage, g: Stage, fs: seq<Outgoing>, k: nat): Stage
    requires k < |fs|
    decreases k
  {
    if k == 0 then g else Standing(step, step(g, fs[0]), fs[1..], k - 1)
  }

  lemma {:induction false} LeftAfterPackets(make: Maker, read: Reader, s: VS.State, at: Numbers, packets: seq<Packet>, timestamp: u32)
    requires Faithful(make, read) && L.Awaits(s, at.sequence, timestamp) && packets != []
    requires forall i | 0 <= i < |packets| :: packets[i].timestamp == timestamp && packets[i].payload != []
    ensures L.Leaves(ReceiveAll(read, s, Made(make, at, packets)).0, at.sequence + |packets|, timestamp)
  {
    MadeIsReceived(make, read, s, at, packets);
    L.PacketsLeave(s, at.sequence, packets, timestamp);
  }

  lemma {:induction false} LeftAfterSending(make: Maker, read: Reader, s: VS.State, at: Numbers, x: Outgoing)
    requires Faithful(make, read) && Nals(x.frame) != [] && L.Awaits(s, at.sequence, x.timestamp)
    ensures L.Leaves(SendAndReceive(make, read, s, at, x).0, at.sequence + |FramePackets(x)|, x.timestamp)
  {
    FrameIsClean(x);
    L.UnitPacketsCarry(UnitOf(x));
    LeftAfterPackets(make, read, s, at, FramePackets(x), x.timestamp);
  }

  /** A step that leaves the stream in order and knows only its frame's timestamp. */
  ghost predicate KeepsOrder(step: (Stage, Outgoing) -> Stage) {
    forall g: Stage, x: Outgoing | Nals(x.frame) != [] && L.Awaits(g.receiver, g.at.sequence, x.timestamp) ::
      L.Leaves(step(g, x).receiver, step(g, x).at.sequence, x.timestamp)
  }

  lemma {:induction false} AfterFrameIs(make: Maker, read: Reader, g: Stage, x: Outgoing)
    requires Nals(x.frame) != []
    ensures AfterFrame(make, read)(g, x).receiver == SendAndReceive(make, read, g.receiver, g.at, x).0
    ensures AfterFrame(make, read)(g, x).at.sequence == g.at.sequence + |FramePackets(x)|
  {
  }

  lemma {:induction false} SameStage(g: Stage, s: VS.State, q: nat, timestamp: u32)
    requires g.receiver == s && g.at.sequence == q && L.Leaves(s, q, timestamp)
    ensures L.Leaves(g.receiver, g.at.sequence, timestamp)
  {
  }

  lemma {:induction false} FrameLeaves(make: Maker, read: Reader, g: Stage, x: Outgoing, after: Stage)
    requires Faithful(make, read) && Nals(x.frame) != [] && L.Awaits(g.receiver, g.at.sequence, x.timestamp)
    requires after == AfterFrame(make, read)(g, x)
    ensures L.Leaves(after.receiver, after.at.sequence, x.timestamp)
  {
    AfterFrameIs(make, read, g, x);
    LeftAfterSending(make, read, g.receiver, g.at, x);
    SameStage(after, SendAndReceive(make, read, g.receiver, g.at, x).0, g.at.sequence + |FramePackets(x)|, x.timestamp);
  }

  lemma {:induction false} FrameKeepsOrder(make: Maker, read: Reader)
    requires Faithful(make, read)
    ensures KeepsOrder(AfterFrame(make, read))
  {
    forall g: Stage, x: Outgoing | Nals(x.frame) != [] && L.Awaits(g.receiver, g.at.sequence, x.timestamp)
      ensures L.Leaves(AfterFrame(make, read)(g, x).receiver, AfterFrame(make, read)(g, x).at.sequence, x.timestamp)
    {
      FrameLeaves(make, read, g, x, AfterFrame(make, read)(g, x));
    }
  }

  lemma {:induction false} StreamTail(fs: seq<Outgoing>)
    requires Stream(fs) && |fs| > 1
    ensures Stream(fs[1..]) && fs[1..][0] == fs[1] && Nals(fs[0].frame) != [] && Nals(fs[1].frame) != []
    ensures fs[0].timestamp != fs[1].timestamp
  {
  }

  lemma {:induction false} StandingAwaits(step: (Stage, Outgoing) -> Stage, g: Stage, fs: seq<Outgoing>, k: nat)
    requires KeepsOrder(step) && Stream(fs) && k < |fs| && L.Awaits(g.receiver, g.at.sequence, fs[0].timestamp)
    ensures var g' := Standing(step, g, fs, k); L.Awaits(g'.receiver, g'.at.sequence, fs[k].timestamp)
    decreases k
  {
    if k > 0 {
      StreamTail(fs);
      var g1 := step(g, fs[0]);
      L.LeftAwaits(g1.receiver, g1.at.sequence, fs[0].timestamp, fs[1].timestamp);
      StandingAwaits(step, g1, fs[1..], k - 1);
    }
  }

  /** A stream of any length over a channel that loses nothing, from a new receiver and any counters, through
      every wrap of sequence, nonce and timestamp: each frame comes out with its last packet as its
      four-byte rewrite, and nothing before, exactly when it can be carried and fits. */
  lemma {:induction false} StreamRoundTrip(c: Aead, ssrc: u32, at: Numbers, fs: seq<Outgoing>, k: nat)
    requires Lawful(c) && Stream(fs) && k < |fs|
    ensures Rewrite(fs[k].frame, 4, 4).Some?
    ensures var make, read := MakerOf(c, ssrc), ReaderOf(c);
            var g := Standing(AfterFrame(make, read), Stage(VS.Fresh(VS.H264Codec), at), fs, k);
            var whole := Rewrite(fs[k].frame, 4, 4).value;
            var outs := SendAndReceive(make, read, g.receiver, g.at, fs[k]).1;
            VS.OnlyAtEnd(outs, Some(Frame(whole, HasNalType(whole, 5)))) <==>
            (forall j | 0 <= j < |Nals(fs[k].frame)| :: Carried(Nals(fs[k].frame)[j])) && |whole| <= MAX_VIDEO_FRAME_BYTES
  {
    var make, read := MakerOf(c, ssrc), ReaderOf(c);
    WireIsFaithful(c, ssrc);
    FrameKeepsOrder(make, read);
    StandingAwaits(AfterFrame(make, read), Stage(VS.Fresh(VS.H264Codec), at), fs, k);
    var g := Standing(AfterFrame(make, read), Stage(VS.Fresh(VS.H264Codec), at), fs, k);
    WireIsMade(c, ssrc, g.at, FramePackets(fs[k]));
    AccessUnitRoundTrip(c, fs[k].frame, ssrc, fs[k].timestamp, g.at, g.receiver);
  }
}
