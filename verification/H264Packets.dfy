/** How an access unit's NAL units become RTP payloads (the packetization loops of `send_h264_frame`
    in `src/voice_conn.rs`): a NAL unit of at most 1096 bytes travels whole, a longer one as FU-A
    fragments of at most 1094 bytes (RFC 6184 section 5.8).

    A packet is named by its `Slot`, so that its place among its neighbours is part of its name. */
module H264Packets {
  import opened Bytes
  import opened H264Depacketizer

  const MAX_VIDEO_RTP_CHUNK_BYTES: nat := 1100
  const EXTENSION_PAYLOAD_BYTES: nat := 4
  const MAX_SINGLE_NAL: nat := MAX_VIDEO_RTP_CHUNK_BYTES - EXTENSION_PAYLOAD_BYTES
  const MAX_FU_PAYLOAD: nat := MAX_VIDEO_RTP_CHUNK_BYTES - EXTENSION_PAYLOAD_BYTES - 2

  /** Fragment `frag` of NAL unit number `nal`. */
  datatype Slot = Slot(nal: nat, frag: nat)

  ghost predicate NonEmpty(nals: seq<seq<byte>>) {
    forall k | 0 <= k < |nals| :: nals[k] != []
  }

  predicate Single(nal: seq<byte>) {
    |nal| <= MAX_SINGLE_NAL
  }

  /** How much of the NAL unit has been sent once fragments 0..frag are out. */
  function SentUpTo(nal: seq<byte>, frag: nat): nat {
    if Single(nal) then |nal| else Min(|nal|, 1 + MAX_FU_PAYLOAD * (frag + 1))
  }

  predicate HasFrag(nal: seq<byte>, frag: nat) {
    nal != [] && (frag == 0 || (!Single(nal) && 1 + MAX_FU_PAYLOAD * frag < |nal|))
  }

  predicate LastFrag(nal: seq<byte>, frag: nat) {
    SentUpTo(nal, frag) == |nal|
  }

  function FuHeader(nalType: int, first: bool, last: bool): byte
    requires 0 <= nalType < 32
  {
    ((if first then 0x80 else 0) + (if last then 0x40 else 0) + nalType) as byte
  }

  /** FU indicator and FU header of a fragment of the NAL unit that begins with `header`. */
  function FuPrefix(header: byte, first: bool, last: bool): (p: seq<byte>)
    ensures |p| == 2
  {
    [(header / 32) * 32 + 28, FuHeader(NalType(header), first, last)]
  }

  function FuPayload(nal: seq<byte>, frag: nat): seq<byte>
    requires HasFrag(nal, frag) && !Single(nal)
  {
    FuPrefix(nal[0], frag == 0, LastFrag(nal, frag)) + nal[1 + MAX_FU_PAYLOAD * frag..SentUpTo(nal, frag)]
  }

  function Payload(nal: seq<byte>, frag: nat): seq<byte>
    requires HasFrag(nal, frag)
  {
    if Single(nal) then nal else FuPayload(nal, frag)
  }

  predicate ValidSlot(nals: seq<seq<byte>>, slot: Slot) {
    slot.nal < |nals| && HasFrag(nals[slot.nal], slot.frag)
  }

  predicate FinalSlot(nals: seq<seq<byte>>, slot: Slot)
    requires ValidSlot(nals, slot)
  {
    slot.nal == |nals| - 1 && LastFrag(nals[slot.nal], slot.frag)
  }

  /** The slot after one that is not final. */
  function NextSlot(nals: seq<seq<byte>>, slot: Slot): Slot
    requires ValidSlot(nals, slot)
  {
    if LastFrag(nals[slot.nal], slot.frag) then Slot(slot.nal + 1, 0) else Slot(slot.nal, slot.frag + 1)
  }

  function SlotPacket(nals: seq<seq<byte>>, timestamp: u32, slot: Slot): Packet
    requires ValidSlot(nals, slot)
  {
    Packet(timestamp, FinalSlot(nals, slot), Payload(nals[slot.nal], slot.frag))
  }

  /** NAL bytes of the slot's unit that were not sent before it: the measure of the fragment loop. */
  function BytesLeft(nals: seq<seq<byte>>, slot: Slot): nat
    requires ValidSlot(nals, slot)
  {
    if slot.frag == 0 then |nals[slot.nal]| else |nals[slot.nal]| - SentUpTo(nals[slot.nal], slot.frag - 1)
  }

  /** Going to the next slot shrinks the measure of the two loops. */
  lemma {:induction false} NextSlotShrinks(nals: seq<seq<byte>>, slot: Slot)
    requires NonEmpty(nals) && ValidSlot(nals, slot) && !FinalSlot(nals, slot)
    ensures var next := NextSlot(nals, slot);
            && ValidSlot(nals, next)
            && (next.nal == slot.nal + 1 || (next.nal == slot.nal && BytesLeft(nals, next) < BytesLeft(nals, slot)))
  {
  }

  /** The slots from `slot` to the end of the access unit. */
  function SlotsFrom(nals: seq<seq<byte>>, slot: Slot): seq<Slot>
    requires NonEmpty(nals) && ValidSlot(nals, slot)
    decreases |nals| - slot.nal, BytesLeft(nals, slot)
  {
    [slot] + if FinalSlot(nals, slot) then [] else SlotsFrom(nals, NextSlot(nals, slot))
  }

  function Slots(nals: seq<seq<byte>>): seq<Slot>
    requires NonEmpty(nals)
  {
    if nals == [] then [] else SlotsFrom(nals, Slot(0, 0))
  }

  /** Neighbouring slots follow each other; the last one, and only it, is final. */
  ghost predicate Chained(nals: seq<seq<byte>>, slots: seq<Slot>) {
    && (forall i | 0 <= i < |slots| :: ValidSlot(nals, slots[i]))
    && (forall i | 0 <= i < |slots| :: FinalSlot(nals, slots[i]) <==> i == |slots| - 1)
    && (forall i | 0 <= i < |slots| - 1 :: slots[i + 1] == NextSlot(nals, slots[i]))
  }

  lemma {:induction false} SlotsFromChained(nals: seq<seq<byte>>, slot: Slot)
    requires NonEmpty(nals) && ValidSlot(nals, slot)
    ensures SlotsFrom(nals, slot) != [] && SlotsFrom(nals, slot)[0] == slot
    ensures Chained(nals, SlotsFrom(nals, slot))
    decreases |nals| - slot.nal, BytesLeft(nals, slot)
  {
    if !FinalSlot(nals, slot) {
      SlotsFromChained(nals, NextSlot(nals, slot));
      var rest := SlotsFrom(nals, NextSlot(nals, slot));
      var all := SlotsFrom(nals, slot);
      assert all == [slot] + rest;
      forall i | 0 <= i < |all| - 1
        ensures all[i + 1] == NextSlot(nals, all[i])
      {
        if i > 0 { assert all[i + 1] == rest[i] && all[i] == rest[i - 1]; }
      }
    }
  }

  /** No packet carries more than 1096 bytes behind the extension, a NAL unit of that size is not split, and
      all fragments but the last are that large. */
  lemma {:induction false} PacketSizes(nal: seq<byte>, frag: nat)
    requires HasFrag(nal, frag)
    ensures 0 < |Payload(nal, frag)| <= 1096
    ensures |nal| <= 1096 ==> LastFrag(nal, frag) && Payload(nal, frag) == nal
    ensures |nal| > 1096 && !LastFrag(nal, frag) ==> |Payload(nal, frag)| == 1096
  {
  }

  function PacketsOf(nals: seq<seq<byte>>, timestamp: u32, slots: seq<Slot>): seq<Packet>
    requires forall i | 0 <= i < |slots| :: ValidSlot(nals, slots[i])
  {
    seq(|slots|, i requires 0 <= i < |slots| => SlotPacket(nals, timestamp, slots[i]))
  }

  /** A NAL unit that survives the trip: fragments carry any type, a single packet only types 1..23. */
  predicate Carried(nal: seq<byte>) {
    nal != [] && (|nal| <= 1096 ==> 1 <= NalType(nal[0]) <= 23)
  }
}
