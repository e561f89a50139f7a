/** RTP headers, extension and padding (`src/rtp.rs`; RFC 3550 section 5.1 and, for the 0xBEDE profile,
    RFC 8285 section 4.2). */
module Rtp {
  import opened Bytes

  const RTP_HEADER_LEN: nat := 12
  const OPUS_PT: byte := 0x78
  const H264_PT: byte := 103
  const H264_RTX_PT: byte := 104
  const VP8_RTX_PT: byte := 106

  // ---------------------------------------------------------------- big-endian integers

  function U16Bytes(x: u16): (b: seq<byte>)
    ensures |b| == 2
  {
    [(x / 0x100) as byte, (x % 0x100) as byte]
  }

  function U32Bytes(x: u32): (b: seq<byte>)
    ensures |b| == 4
  {
    U16Bytes(x / 0x1_0000) + U16Bytes(x % 0x1_0000)
  }

  function U32Of(b0: byte, b1: byte, b2: byte, b3: byte): u32 {
    0x1_0000 * U16Of(b0, b1) + U16Of(b2, b3)
  }

  lemma {:induction false} U16RoundTrip(x: u16)
    ensures var b := U16Bytes(x); U16Of(b[0], b[1]) == x
  {
  }

  lemma {:induction false} U32RoundTrip(x: u32)
    ensures var b := U32Bytes(x); U32Of(b[0], b[1], b[2], b[3]) == x
  {
    U16RoundTrip(x / 0x1_0000);
    U16RoundTrip(x % 0x1_0000);
  }

  // ---------------------------------------------------------------- building

  /** The fixed header with first bytes `b0` and `b1`. */
  function FixedHeader(b0: byte, b1: byte, sequence: u16, timestamp: u32, ssrc: u32): (h: seq<byte>)
    ensures |h| == RTP_HEADER_LEN
  {
    [b0, b1] + U16Bytes(sequence) + U32Bytes(timestamp) + U32Bytes(ssrc)
  }

  function WithMarker(payloadType: byte, marker: bool): byte {
    if marker && payloadType < 0x80 then payloadType + 0x80 else payloadType
  }

  method CopyInto(h: array<byte>, at: nat, bytes: seq<byte>)
    requires at + |bytes| <= h.Length
    modifies h
    ensures h[..] == old(h[..at]) + bytes + old(h[at + |bytes|..])
  {
    var i := 0;
    while i < |bytes|
      invariant i <= |bytes|
      invariant forall k | 0 <= k < h.Length :: h[k] == if at <= k < at + i then bytes[k - at] else old(h[k])
    {
      h[at + i] := bytes[i];
      i := i + 1;
    }
  }

  method FillHeader(b0: byte, b1: byte, sequence: u16, timestamp: u32, ssrc: u32) returns (h: array<byte>)
    ensures fresh(h) && h[..] == FixedHeader(b0, b1, sequence, timestamp, ssrc)
  {
    h := new byte[12](_ => 0);
    h[0] := b0;
    h[1] := b1;
    assert h[..2] == [b0, b1];
    CopyInto(h, 2, U16Bytes(sequence));
    assert h[..4] == [b0, b1] + U16Bytes(sequence);
    CopyInto(h, 4, U32Bytes(timestamp));
    assert h[..8] == [b0, b1] + U16Bytes(sequence) + U32Bytes(timestamp);
    CopyInto(h, 8, U32Bytes(ssrc));
  }

  method BuildRtpHeader(sequence: u16, timestamp: u32, ssrc: u32) returns (h: array<byte>)
    ensures fresh(h) && h[..] == FixedHeader(0x80, 0x78, sequence, timestamp, ssrc)
  {
    h := FillHeader(0x80, OPUS_PT, sequence, timestamp, ssrc);
  }

  method BuildVideoRtpHeader(payloadType: byte, sequence: u16, timestamp: u32, ssrc: u32, marker: bool)
    returns (h: array<byte>)
    ensures fresh(h) && h[..] == FixedHeader(0x90, WithMarker(payloadType, marker), sequence, timestamp, ssrc)
  {
    h := FillHeader(0x90, WithMarker(payloadType, marker), sequence, timestamp, ssrc);
  }

  // ---------------------------------------------------------------- parsing

  datatype Header = Header(sequence: u16, timestamp: u32, ssrc: u32, size: nat, marker: bool)

  function CsrcCount(packet: seq<byte>): nat
    requires packet != []
  {
    (packet[0] % 16) as int
  }

  predicate HasExtension(packet: seq<byte>)
    requires packet != []
  {
    (packet[0] / 16) % 2 == 1
  }

  predicate HasPadding(packet: seq<byte>)
    requires packet != []
  {
    (packet[0] / 32) % 2 == 1
  }

  /** Where the CSRC list ends. */
  function CsrcEnd(packet: seq<byte>): nat
    requires packet != []
  {
    RTP_HEADER_LEN + 4 * CsrcCount(packet)
  }

  /** The fixed fields, for a header of `size` bytes. */
  function FieldsOf(data: seq<byte>, size: nat): Header
    requires |data| >= RTP_HEADER_LEN
  {
    Header(U16Of(data[2], data[3]),
           U32Of(data[4], data[5], data[6], data[7]),
           U32Of(data[8], data[9], data[10], data[11]),
           size,
           data[1] >= 0x80)
  }

  function ParseHeader(data: seq<byte>): Option<Header> {
    if |data| < RTP_HEADER_LEN || |data| < CsrcEnd(data) then None
    else if !HasExtension(data) then Some(FieldsOf(data, CsrcEnd(data)))
    else if |data| < CsrcEnd(data) + 4 then None
    else
      var size := CsrcEnd(data) + 4 + 4 * U16Of(data[CsrcEnd(data) + 2], data[CsrcEnd(data) + 3]);
      if |data| < size then None else Some(FieldsOf(data, size))
  }

  method ParseRtpHeader(data: seq<byte>) returns (r: Option<Header>)
    ensures r == ParseHeader(data)
  {
    if |data| < RTP_HEADER_LEN {
      return None;
    }
    var headerSize := RTP_HEADER_LEN + 4 * CsrcCount(data);
    if |data| < headerSize {
      return None;
    }
    if HasExtension(data) {
      if |data| < headerSize + 4 {
        return None;
      }
      var extLen: nat := U16Of(data[headerSize + 2], data[headerSize + 3]);
      headerSize := headerSize + 4 + extLen * 4;
      if |data| < headerSize {
        return None;
      }
    }
    return Some(FieldsOf(data, headerSize));
  }

  // ---------------------------------------------------------------- stripping

  /** The padding count is the last byte; an impossible count strips nothing. */
  function StripPadding(packet: seq<byte>, decrypted: seq<byte>): seq<byte>
    requires packet != []
  {
    if !HasPadding(packet) || decrypted == [] then decrypted
    else
      var count := decrypted[|decrypted| - 1] as int;
      if count == 0 || count > |decrypted| then decrypted else decrypted[..|decrypted| - count]
  }

  /** The extension body is inside the decrypted bytes; its length is in the clear four-byte prefix. */
  function StripExtension(packet: seq<byte>, decrypted: seq<byte>): Option<seq<byte>>
    requires packet != []
  {
    if !HasExtension(packet) || |packet| < CsrcEnd(packet) + 4 then Some(decrypted)
    else
      var body := 4 * U16Of(packet[CsrcEnd(packet) + 2], packet[CsrcEnd(packet) + 3]);
      if |decrypted| <= body then None else Some(decrypted[body..])
  }
}
