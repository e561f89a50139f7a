/** `send_h264_frame` of `src/voice_conn.rs`: an access unit becomes encrypted RTP packets. */
module H264Sender {
  import opened Bytes
  import opened AnnexB
  import opened AnnexBRewrite
  import opened H264Depacketizer
  import opened H264Packets
  import opened Rtp
  import opened Transport

  const EXTENSION_HEADER: seq<byte> := [0xbe, 0xde, 0x00, 0x01]
  const EXTENSION_PAYLOAD: seq<byte> := [0x51, 0x00, 0x00, 0x00]

  /** The counters that number the packets; all wrap at 2^32, and the low 16 bits of the first are sent. */
  datatype Numbers = Numbers(sequence: nat, nonce: nat)

  function WirePacket(c: Aead, payloadType: byte, ssrc: u32, at: Numbers, p: Packet): seq<byte> {
    var clear := FixedHeader(0x90, WithMarker(payloadType, p.marker), at.sequence % 0x1_0000, p.timestamp, ssrc)
                 + EXTENSION_HEADER;
    clear + Sealed(c, at.nonce % 0x1_0000_0000, clear, EXTENSION_PAYLOAD + p.payload)
  }

  function Advance(at: Numbers, count: nat): Numbers {
    Numbers(at.sequence + count, at.nonce + count)
  }

  function Wire(c: Aead, payloadType: byte, ssrc: u32, at: Numbers, packets: seq<Packet>): seq<seq<byte>> {
    seq(|packets|, i requires 0 <= i < |packets| => WirePacket(c, payloadType, ssrc, Advance(at, i), packets[i]))
  }

  lemma {:induction false} WireSnoc(c: Aead, payloadType: byte, ssrc: u32, at: Numbers, packets: seq<Packet>, p: Packet)
    ensures Wire(c, payloadType, ssrc, at, packets + [p]) ==
            Wire(c, payloadType, ssrc, at, packets) + [WirePacket(c, payloadType, ssrc, Advance(at, |packets|), p)]
  {
  }

  /** The nonce that a packet ends with. */
  function NonceOf(packet: seq<byte>): seq<byte>
    requires |packet| >= 4
  {
    packet[|packet| - 4..]
  }

  /** No nonce is used twice within 2^32 packets, whatever they carry. */
  lemma {:induction false} NoncesDiffer(c: Aead, payloadType: byte, ssrc: u32, at: Numbers, i: nat, j: nat, p: Packet, q: Packet)
    requires i < j < i + 0x1_0000_0000
    ensures var (x, y) := (WirePacket(c, payloadType, ssrc, Advance(at, i), p), WirePacket(c, payloadType, ssrc, Advance(at, j), q));
            |x| >= 4 && |y| >= 4 && NonceOf(x) != NonceOf(y)
  {
    NonceAtEnd(c, payloadType, ssrc, Advance(at, i), p);
    NonceAtEnd(c, payloadType, ssrc, Advance(at, j), q);
    RemaindersDiffer(at.nonce + i, at.nonce + j, 0x1_0000_0000);
    BytesDiffer((at.nonce + i) % 0x1_0000_0000, (at.nonce + j) % 0x1_0000_0000);
  }

  lemma {:induction false} BytesDiffer(m: u32, n: u32)
    requires m != n
    ensures U32Bytes(m) != U32Bytes(n)
  {
    U32RoundTrip(m);
    U32RoundTrip(n);
  }

  lemma {:induction false} NonceAtEnd(c: Aead, payloadType: byte, ssrc: u32, at: Numbers, p: Packet)
    ensures var x := WirePacket(c, payloadType, ssrc, at, p); |x| >= 4 && NonceOf(x) == U32Bytes(at.nonce % 0x1_0000_0000)
  {
  }

  lemma {:induction false} RemaindersDiffer(x: nat, y: nat, m: nat)
    requires x < y < x + m
    ensures x % m != y % m
  {
    var d := y / m - x / m;
    assert y - x == m * d + (y % m - x % m);
    assert d >= 1 ==> m * d >= m;
    assert d <= 0 ==> m * d <= 0;
  }

  /** `out` holds the packets of the slots before `slot`. */
  ghost predicate Progress(c: Aead, payloadType: byte, ssrc: u32, at: Numbers,
                           nals: seq<seq<byte>>, timestamp: u32, out: seq<seq<byte>>, slot: Slot)
  {
    && NonEmpty(nals) && Chained(nals, Slots(nals))
    && |out| <= |Slots(nals)|
    && slot == (if |out| < |Slots(nals)| then Slots(nals)[|out|] else Slot(|nals|, 0))
    && out == Wire(c, payloadType, ssrc, at, PacketsOf(nals, timestamp, Slots(nals)[..|out|]))
  }

  lemma {:induction false} ProgressStart(c: Aead, payloadType: byte, ssrc: u32, at: Numbers, nals: seq<seq<byte>>, timestamp: u32)
    requires NonEmpty(nals) && nals != []
    ensures Progress(c, payloadType, ssrc, at, nals, timestamp, [], Slot(0, 0))
  {
    SlotsFromChained(nals, Slot(0, 0));
  }

  lemma {:induction false} ProgressNext(c: Aead, payloadType: byte, ssrc: u32, at: Numbers,
                                        nals: seq<seq<byte>>, timestamp: u32, out: seq<seq<byte>>, slot: Slot)
    requires Progress(c, payloadType, ssrc, at, nals, timestamp, out, slot)
    requires ValidSlot(nals, slot)
    ensures var packet := WirePacket(c, payloadType, ssrc, Advance(at, |out|), SlotPacket(nals, timestamp, slot));
            Progress(c, payloadType, ssrc, at, nals, timestamp, out + [packet], NextSlot(nals, slot))
  {
    var slots := Slots(nals);
    var k := |out|;
    var p := SlotPacket(nals, timestamp, slot);
    assert slots[..k + 1] == slots[..k] + [slots[k]];
    assert PacketsOf(nals, timestamp, slots[..k + 1]) == PacketsOf(nals, timestamp, slots[..k]) + [p];
    WireSnoc(c, payloadType, ssrc, at, PacketsOf(nals, timestamp, slots[..k]), p);
  }

  /** What the chunk loop builds from chunk number `frag`. */
  lemma {:induction false} ChunkIsFragment(nal: seq<byte>, frag: nat)
    requires HasFrag(nal, frag) && !Single(nal)
    ensures var start := frag * MAX_FU_PAYLOAD;
            var chunk := nal[1 + start..Min(|nal|, 1 + start + MAX_FU_PAYLOAD)];
            var last := start + |chunk| >= |nal| - 1;
            && last == LastFrag(nal, frag)
            && FuPrefix(nal[0], frag == 0, last) + chunk == FuPayload(nal, frag)
  {
  }

  /** Where the chunk loop stands before chunk `frag`, which may be one past the last. */
  ghost function ChunkSlot(nals: seq<seq<byte>>, nal: nat, frag: nat): Slot
    requires nal < |nals|
  {
    if frag * MAX_FU_PAYLOAD < |nals[nal]| - 1 then Slot(nal, frag) else Slot(nal + 1, 0)
  }

  lemma {:induction false} ChunkNext(nals: seq<seq<byte>>, nal: nat, frag: nat)
    requires nal < |nals| && !Single(nals[nal]) && frag * MAX_FU_PAYLOAD < |nals[nal]| - 1
    ensures ValidSlot(nals, Slot(nal, frag)) && ChunkSlot(nals, nal, frag) == Slot(nal, frag)
    ensures NextSlot(nals, Slot(nal, frag)) == ChunkSlot(nals, nal, frag + 1)
  {
  }

  lemma {:induction false} CounterWraps(x: nat)
    ensures (x % 0x1_0000_0000) % 0x1_0000 == x % 0x1_0000
    ensures (x % 0x1_0000_0000 + 1) % 0x1_0000_0000 == (x + 1) % 0x1_0000_0000
  {
    var q := x / 0x1_0000_0000;
    var r := x % 0x1_0000_0000;
    assert x == q * 0x1_0000_0000 + r;
    SameRemainder(x, r, q * 0x1_0000, 0x1_0000);
    SameRemainder(x + 1, r + 1, q, 0x1_0000_0000);
  }

  lemma {:induction false} SameRemainder(x: int, y: int, q: int, m: int)
    requires m > 0 && x == y + q * m
    ensures x % m == y % m
  {
    assert x == (y / m + q) * m + y % m;
    assert x - x / m * m == x % m;
    var d := x / m - y / m - q;
    assert d * m == y % m - x % m;
    assert d >= 1 ==> d * m >= m;
    assert d <= -1 ==> d * m <= -m;
  }

  /** What one pass of the chunk loop puts behind the RTP header. */
  method FragmentPacket(nalus: seq<seq<byte>>, nalIndex: nat, chunkIndex: nat, timestamp: u32) returns (p: Packet)
    requires ValidSlot(nalus, Slot(nalIndex, chunkIndex)) && !Single(nalus[nalIndex])
    ensures p == SlotPacket(nalus, timestamp, Slot(nalIndex, chunkIndex))
  {
    var nal := nalus[nalIndex];
    var isLastNal := nalIndex + 1 == |nalus|;
    var chunkStart := chunkIndex * MAX_FU_PAYLOAD;
    var chunk := nal[1 + chunkStart..Min(|nal|, 1 + chunkStart + MAX_FU_PAYLOAD)];
    var isLastChunk := chunkStart + |chunk| >= |nal| - 1;
    var payload := FuPrefix(nal[0], chunkIndex == 0, isLastChunk) + chunk;
    ChunkIsFragment(nal, chunkIndex);
    p := Packet(timestamp, isLastNal && isLastChunk, payload);
  }

  datatype SendResult = Sent(packets: seq<seq<byte>>) | NoSsrc | NoNalUnits

  class VideoSender {
    const crypto: TransportCrypto
    const payloadType: byte
    const videoSsrc: Option<u32>
    var videoSequence: u32
    var videoTimestamp: u32

    constructor (crypto: TransportCrypto, videoSsrc: Option<u32>)
      ensures this.crypto == crypto && this.videoSsrc == videoSsrc && payloadType == H264_PT
      ensures videoSequence == 0 && videoTimestamp == 0
    {
      this.crypto := crypto;
      this.videoSsrc := videoSsrc;
      payloadType := H264_PT;
      videoSequence, videoTimestamp := 0, 0;
    }

    function At(): Numbers
      reads this, crypto
    {
      Numbers(videoSequence, crypto.sendNonce)
    }

    method SendPacket(p: Packet, ghost start: Numbers, ghost sent: nat, ssrc: u32) returns (packet: seq<byte>)
      requires Counting(start, sent)
      modifies this`videoSequence, crypto
      ensures packet == WirePacket(crypto.aead, payloadType, ssrc, Advance(start, sent), p)
      ensures Counting(start, sent + 1)
    {
      CounterWraps(start.sequence + sent);
      CounterWraps(start.nonce + sent);
      var sequence: u16 := videoSequence % 0x1_0000;
      videoSequence := (videoSequence + 1) % 0x1_0000_0000;
      var header := BuildVideoRtpHeader(payloadType, sequence, p.timestamp, ssrc, p.marker);
      var aad := header[..] + EXTENSION_HEADER;
      var payload := EXTENSION_PAYLOAD + p.payload;
      var encrypted := crypto.Encrypt(aad, payload);
      packet := header[..] + EXTENSION_HEADER;
      packet := packet + encrypted;
    }

    /** One pass of the chunk loop. */
    method SendChunk(nalus: seq<seq<byte>>, nalIndex: nat, chunkIndex: nat, timestamp: u32, ssrc: u32,
                     ghost start: Numbers, before: seq<seq<byte>>)
      returns (out: seq<seq<byte>>)
      requires ValidSlot(nalus, Slot(nalIndex, chunkIndex)) && !Single(nalus[nalIndex])
      requires Counting(start, |before|)
      requires Progress(crypto.aead, payloadType, ssrc, start, nalus, timestamp, before, Slot(nalIndex, chunkIndex))
      modifies this`videoSequence, crypto
      ensures Counting(start, |out|)
      ensures Progress(crypto.aead, payloadType, ssrc, start, nalus, timestamp, out,
                       NextSlot(nalus, Slot(nalIndex, chunkIndex)))
    {
      var p := FragmentPacket(nalus, nalIndex, chunkIndex, timestamp);
      var packet := SendPacket(p, start, |before|, ssrc);
      ProgressNext(crypto.aead, payloadType, ssrc, start, nalus, timestamp, before, Slot(nalIndex, chunkIndex));
      out := before + [packet];
    }

    /** The chunk loop for a NAL unit that does not fit in one packet. */
    method SendFragments(nalus: seq<seq<byte>>, nalIndex: nat, timestamp: u32, ssrc: u32, ghost start: Numbers, before: seq<seq<byte>>)
      returns (out: seq<seq<byte>>)
      requires nalIndex < |nalus| && !Single(nalus[nalIndex])
      requires Counting(start, |before|)
      requires Progress(crypto.aead, payloadType, ssrc, start, nalus, timestamp, before, Slot(nalIndex, 0))
      modifies this`videoSequence, crypto
      ensures Counting(start, |out|)
      ensures Progress(crypto.aead, payloadType, ssrc, start, nalus, timestamp, out, Slot(nalIndex + 1, 0))
    {
      out := before;
      var length := |nalus[nalIndex]| - 1;
      var chunkIndex := 0;
      while chunkIndex * MAX_FU_PAYLOAD < length
        invariant 0 <= chunkIndex
        invariant Counting(start, |out|)
        invariant Progress(crypto.aead, payloadType, ssrc, start, nalus, timestamp, out, ChunkSlot(nalus, nalIndex, chunkIndex))
        decreases length - chunkIndex * MAX_FU_PAYLOAD
      {
        ChunkNext(nalus, nalIndex, chunkIndex);
        out := SendChunk(nalus, nalIndex, chunkIndex, timestamp, ssrc, start, out);
        chunkIndex := chunkIndex + 1;
      }
    }

    /** One pass of the loop over NAL units. */
    method SendNal(nalus: seq<seq<byte>>, nalIndex: nat, timestamp: u32, ssrc: u32, ghost start: Numbers, before: seq<seq<byte>>)
      returns (out: seq<seq<byte>>)
      requires nalIndex < |nalus|
      requires Counting(start, |before|)
      requires Progress(crypto.aead, payloadType, ssrc, start, nalus, timestamp, before, Slot(nalIndex, 0))
      modifies this`videoSequence, crypto
      ensures Counting(start, |out|)
      ensures Progress(crypto.aead, payloadType, ssrc, start, nalus, timestamp, out, Slot(nalIndex + 1, 0))
    {
      out := before;
      var nal := nalus[nalIndex];
      var isLastNal := nalIndex + 1 == |nalus|;
      if |nal| <= MAX_SINGLE_NAL {
        ghost var slot := Slot(nalIndex, 0);
        var packet := SendPacket(Packet(timestamp, isLastNal, nal), start, |out|, ssrc);
        ProgressNext(crypto.aead, payloadType, ssrc, start, nalus, timestamp, out, slot);
        out := out + [packet];
      } else {
        out := SendFragments(nalus, nalIndex, timestamp, ssrc, start, out);
      }
    }

    /** The counters stand `sent` packets after `start`. */
    ghost predicate Counting(start: Numbers, sent: nat)
      reads this, crypto
    {
      && videoSequence == (start.sequence + sent) % 0x1_0000_0000
      && crypto.sendNonce == (start.nonce + sent) % 0x1_0000_0000
    }

    method SendH264Frame(accessUnit: seq<byte>, timestampIncrement: u32) returns (r: SendResult)
      modifies this, crypto
      ensures videoSsrc.None? ==> r == NoSsrc
      ensures videoSsrc.Some? && Nals(accessUnit) == [] ==> r == NoNalUnits
      ensures !r.Sent? ==> At() == old(At()) && videoTimestamp == old(videoTimestamp)
      ensures r.Sent? ==>
                var nals := Nals(accessUnit);
                && NonEmpty(nals) && Chained(nals, Slots(nals))
                && var packets := PacketsOf(nals, old(videoTimestamp), Slots(nals));
                && r.packets == Wire(crypto.aead, payloadType, videoSsrc.value, old(At()), packets)
                && Counting(old(At()), |packets|)
                && videoTimestamp == (old(videoTimestamp) + Max(timestampIncrement, 1)) % 0x1_0000_0000
                && videoTimestamp != old(videoTimestamp)
    {
      if videoSsrc.None? {
        return NoSsrc;
      }
      var nalus := SplitAnnexBNalus(accessUnit);
      if |nalus| == 0 {
        return NoNalUnits;
      }
      var ssrc := videoSsrc.value;
      ghost var start := At();
      var timestamp := videoTimestamp;
      videoTimestamp := (videoTimestamp + Max(timestampIncrement, 1)) % 0x1_0000_0000;
      JoinSplit4(accessUnit);
      assert NonEmpty(nalus) by { forall k | 0 <= k < |nalus| ensures nalus[k] != [] { assert Clean(nalus[k]); } }
      ProgressStart(crypto.aead, payloadType, ssrc, start, nalus, timestamp);

      var out: seq<seq<byte>> := [];
      var nalIndex := 0;
      while nalIndex < |nalus|
        invariant nalIndex <= |nalus|
        invariant Progress(crypto.aead, payloadType, ssrc, start, nalus, timestamp, out, Slot(nalIndex, 0))
        invariant Counting(start, |out|)
        invariant videoTimestamp == (timestamp + Max(timestampIncrement, 1)) % 0x1_0000_0000
      {
        out := SendNal(nalus, nalIndex, timestamp, ssrc, start, out);
        nalIndex := nalIndex + 1;
      }
      assert Slots(nalus)[..|out|] == Slots(nalus);
      return Sent(out);
    }
  }
}
