/** Transport encryption and the receive path of a media packet (`src/transport_crypto.rs` and the first
    steps of `udp_recv_loop` in `src/voice_conn.rs`). The cipher is any pair of functions that invert
    each other on equal nonce and associated data. */
module Transport {
  import opened Bytes
  import opened Rtp

  const TRANSPORT_TAG_LEN: nat := 16
  const TRANSPORT_NONCE_LEN: nat := 4

  datatype Aead = Aead(
    seal: (u32, seq<byte>, seq<byte>) -> seq<byte>,
    open: (u32, seq<byte>, seq<byte>) -> Option<seq<byte>>)

  ghost predicate Lawful(c: Aead) {
    && (forall n, aad, msg :: |c.seal(n, aad, msg)| == |msg| + TRANSPORT_TAG_LEN)
    && (forall n, aad, msg :: c.open(n, aad, c.seal(n, aad, msg)) == Some(msg))
  }

  /** Ciphertext and tag, then the nonce. */
  function Sealed(c: Aead, nonce: u32, aad: seq<byte>, payload: seq<byte>): seq<byte> {
    c.seal(nonce, aad, payload) + U32Bytes(nonce)
  }

  function DecryptWithAad(c: Aead, packet: seq<byte>, aadSize: nat): Option<seq<byte>> {
    if |packet| < aadSize + TRANSPORT_TAG_LEN + TRANSPORT_NONCE_LEN || |packet| <= aadSize + 4 then None
    else
      var n := |packet| - 4;
      c.open(U32Of(packet[n], packet[n + 1], packet[n + 2], packet[n + 3]), packet[..aadSize], packet[aadSize..n])
  }

  /** The associated data ends after the CSRC list and, if present, the extension's four-byte prefix. */
  function AadSize(packet: seq<byte>): nat
    requires packet != []
  {
    CsrcEnd(packet) + if HasExtension(packet) then 4 else 0
  }

  class TransportCrypto {
    const aead: Aead
    var sendNonce: u32

    constructor (aead: Aead)
      ensures this.aead == aead && sendNonce == 0
    {
      this.aead := aead;
      sendNonce := 0;
    }

    method Encrypt(aad: seq<byte>, payload: seq<byte>) returns (r: seq<byte>)
      modifies this
      ensures r == Sealed(aead, old(sendNonce), aad, payload)
      ensures sendNonce == (old(sendNonce) + 1) % 0x1_0000_0000
    {
      var nonce := sendNonce;
      sendNonce := (sendNonce + 1) % 0x1_0000_0000;
      r := aead.seal(nonce, aad, payload);
      r := r + U32Bytes(nonce);
    }

    method Decrypt(packet: seq<byte>) returns (r: Option<seq<byte>>)
      requires packet != []
      ensures r == DecryptWithAad(aead, packet, AadSize(packet))
    {
      var cc := (packet[0] % 16) as int;
      var aadSize := RTP_HEADER_LEN + cc * 4;
      if (packet[0] / 16) % 2 != 0 {
        aadSize := aadSize + 4;
      }
      r := DecryptWithAad(aead, packet, aadSize);
    }
  }

  // ---------------------------------------------------------------- the receive path

  datatype Received = Received(payloadType: byte, sequence: u16, timestamp: u32, ssrc: u32, marker: bool, payload: seq<byte>)

  /** RTCP (payload types 72..76) and retransmissions are skipped. */
  predicate Skipped(payloadType: byte) {
    72 <= payloadType <= 76 || payloadType == H264_RTX_PT || payloadType == VP8_RTX_PT
  }

  function ReceivePacket(c: Aead, packet: seq<byte>): Option<Received> {
    match ParseHeader(packet)
    case None => None
    case Some(h) =>
      var payloadType := packet[1] % 128;
      if Skipped(payloadType) then None
      else
        match DecryptWithAad(c, packet, AadSize(packet))
        case None => None
        case Some(decrypted) =>
          match StripExtension(packet, StripPadding(packet, decrypted))
          case None => None
          case Some(payload) => Some(Received(payloadType, h.sequence, h.timestamp, h.ssrc, h.marker, payload))
  }

  // ---------------------------------------------------------------- what a sender may put on the wire

  type payload_type = x: int | 0 <= x < 128

  /** Extension: profile and body; the body is a number of 32-bit words. */
  datatype Extension = Extension(profile: u16, words: u16, body: seq<byte>)

  /** A media packet as RFC 3550 section 5.1 lays it out. `padding` is the filler before the count byte. */
  datatype Media = Media(
    payloadType: payload_type,
    marker: bool,
    sequence: u16,
    timestamp: u32,
    ssrc: u32,
    csrcs: seq<u32>,
    extension: Option<Extension>,
    padding: Option<seq<byte>>,
    payload: seq<byte>)

  ghost predicate ValidMedia(m: Media) {
    && |m.csrcs| <= 15
    && (m.extension.Some? ==> |m.extension.value.body| == 4 * m.extension.value.words)
    && (m.padding.Some? ==> |m.padding.value| < 255)
  }

  function CsrcBytes(csrcs: seq<u32>): (b: seq<byte>)
    ensures |b| == 4 * |csrcs|
  {
    if csrcs == [] then [] else U32Bytes(csrcs[0]) + CsrcBytes(csrcs[1..])
  }

  function FirstByte(m: Media): byte
    requires |m.csrcs| <= 15
  {
    (128 + (if m.padding.Some? then 32 else 0) + (if m.extension.Some? then 16 else 0) + |m.csrcs|) as byte
  }

  function FixedPart(m: Media): seq<byte>
    requires |m.csrcs| <= 15
  {
    FixedHeader(FirstByte(m), WithMarker(m.payloadType as byte, m.marker), m.sequence, m.timestamp, m.ssrc)
  }

  function ExtensionPrefix(m: Media): seq<byte> {
    if m.extension.Some? then U16Bytes(m.extension.value.profile) + U16Bytes(m.extension.value.words) else []
  }

  /** The clear part. */
  function Clear(m: Media): seq<byte>
    requires |m.csrcs| <= 15
  {
    FixedPart(m) + CsrcBytes(m.csrcs) + ExtensionPrefix(m)
  }

  function Padding(m: Media): seq<byte>
    requires m.padding.Some? ==> |m.padding.value| < 255
  {
    if m.padding.Some? then m.padding.value + [(|m.padding.value| + 1) as byte] else []
  }

  /** The encrypted part: extension body, payload, padding. */
  function Hidden(m: Media): seq<byte>
    requires m.padding.Some? ==> |m.padding.value| < 255
  {
    (if m.extension.Some? then m.extension.value.body else []) + m.payload + Padding(m)
  }

  ghost function OnWire(c: Aead, nonce: u32, m: Media): seq<byte>
    requires ValidMedia(m)
  {
    Clear(m) + Sealed(c, nonce, Clear(m), Hidden(m))
  }

  lemma {:induction false} FirstByteFields(m: Media)
    requires |m.csrcs| <= 15
    ensures var b := FirstByte(m);
            && (b % 16) as int == |m.csrcs|
            && ((b / 16) % 2 == 1 <==> m.extension.Some?)
            && ((b / 32) % 2 == 1 <==> m.padding.Some?)
  {
  }

  lemma {:induction false} MarkerByte(payloadType: payload_type, marker: bool)
    ensures var b := WithMarker(payloadType as byte, marker);
            b % 128 == payloadType as byte && (b >= 0x80 <==> marker)
  {
  }

  /** Reading back the fixed header. */
  lemma {:induction false} FixedFields(packet: seq<byte>, b0: byte, b1: byte, sequence: u16, timestamp: u32, ssrc: u32)
    requires FixedHeader(b0, b1, sequence, timestamp, ssrc) <= packet
    ensures |packet| >= 12 && packet[0] == b0 && packet[1] == b1
    ensures U16Of(packet[2], packet[3]) == sequence
    ensures U32Of(packet[4], packet[5], packet[6], packet[7]) == timestamp
    ensures U32Of(packet[8], packet[9], packet[10], packet[11]) == ssrc
  {
    var s, t, r := U16Bytes(sequence), U32Bytes(timestamp), U32Bytes(ssrc);
    var fixed := FixedHeader(b0, b1, sequence, timestamp, ssrc);
    assert packet[..12] == fixed;
    assert forall i | 0 <= i < 12 :: packet[i] == packet[..12][i];
    assert packet[2] == s[0] && packet[3] == s[1];
    assert packet[4] == t[0] && packet[5] == t[1] && packet[6] == t[2] && packet[7] == t[3];
    assert packet[8] == r[0] && packet[9] == r[1] && packet[10] == r[2] && packet[11] == r[3];
    U16RoundTrip(sequence);
    U32RoundTrip(timestamp);
    U32RoundTrip(ssrc);
  }

  /** Reading back the extension's word count behind the CSRC list. */
  lemma {:induction false} WordsField(before: seq<byte>, profile: u16, words: u16, tail: seq<byte>)
    ensures var packet := before + (U16Bytes(profile) + U16Bytes(words)) + tail;
            U16Of(packet[|before| + 2], packet[|before| + 3]) == words
  {
    var packet := before + (U16Bytes(profile) + U16Bytes(words)) + tail;
    assert packet[|before| + 2] == U16Bytes(words)[0] && packet[|before| + 3] == U16Bytes(words)[1];
    U16RoundTrip(words);
  }

  /** What the parser reads from a packet that begins with the clear part. */
  lemma {:induction false} ClearFields(m: Media, tail: seq<byte>)
    requires ValidMedia(m)
    ensures var packet := Clear(m) + tail;
            && |packet| >= 12
            && CsrcCount(packet) == |m.csrcs|
            && (HasExtension(packet) <==> m.extension.Some?)
            && (HasPadding(packet) <==> m.padding.Some?)
            && AadSize(packet) == |Clear(m)|
            && packet[1] % 128 == m.payloadType as byte && (packet[1] >= 0x80 <==> m.marker)
            && U16Of(packet[2], packet[3]) == m.sequence
            && U32Of(packet[4], packet[5], packet[6], packet[7]) == m.timestamp
            && U32Of(packet[8], packet[9], packet[10], packet[11]) == m.ssrc
            && (m.extension.Some? ==>
                  U16Of(packet[CsrcEnd(packet) + 2], packet[CsrcEnd(packet) + 3]) == m.extension.value.words)
  {
    var packet := Clear(m) + tail;
    FixedFields(packet, FirstByte(m), WithMarker(m.payloadType as byte, m.marker), m.sequence, m.timestamp, m.ssrc);
    FirstByteFields(m);
    MarkerByte(m.payloadType, m.marker);
    if m.extension.Some? {
      WordsField(FixedPart(m) + CsrcBytes(m.csrcs), m.extension.value.profile, m.extension.value.words, tail);
    }
  }

  /** Cutting `aad + sealed + nonce` back into its parts. */
  lemma {:induction false} PartsOf(aad: seq<byte>, sealed: seq<byte>, nonce: u32)
    ensures var packet := aad + (sealed + U32Bytes(nonce));
            var n := |packet| - 4;
            && n == |aad| + |sealed| && packet[..|aad|] == aad && packet[|aad|..n] == sealed
            && U32Of(packet[n], packet[n + 1], packet[n + 2], packet[n + 3]) == nonce
  {
    var packet := aad + (sealed + U32Bytes(nonce));
    var n := |packet| - 4;
    var b := U32Bytes(nonce);
    assert packet[n] == b[0] && packet[n + 1] == b[1] && packet[n + 2] == b[2] && packet[n + 3] == b[3];
    U32RoundTrip(nonce);
  }

  lemma {:induction false} DecryptInverts(c: Aead, nonce: u32, aad: seq<byte>, msg: seq<byte>, packet: seq<byte>)
    requires Lawful(c) && packet == aad + Sealed(c, nonce, aad, msg)
    ensures DecryptWithAad(c, packet, |aad|) == Some(msg)
  {
    PartsOf(aad, c.seal(nonce, aad, msg), nonce);
  }

  /** The assumption about the cipher can be met. */
  lemma {:induction false} LawfulIsPossible()
    ensures exists c :: Lawful(c)
  {
    var tag := seq(TRANSPORT_TAG_LEN, i => 0 as byte);
    var c := Aead((n, aad, msg) => msg + tag,
                  (n, aad, sealed) =>
                    if |sealed| < TRANSPORT_TAG_LEN then None else Some(sealed[..|sealed| - TRANSPORT_TAG_LEN]));
    forall n, aad, msg ensures c.open(n, aad, c.seal(n, aad, msg)) == Some(msg) {
      assert (msg + tag)[..|msg|] == msg;
    }
    assert Lawful(c);
  }

  lemma {:induction false} StripInverts(packet: seq<byte>, m: Media)
    requires ValidMedia(m) && packet != []
    requires HasPadding(packet) <==> m.padding.Some?
    requires HasExtension(packet) <==> m.extension.Some?
    requires m.extension.Some? ==>
               && |packet| >= CsrcEnd(packet) + 4
               && U16Of(packet[CsrcEnd(packet) + 2], packet[CsrcEnd(packet) + 3]) == m.extension.value.words
    ensures StripExtension(packet, StripPadding(packet, Hidden(m))) ==
            if m.extension.Some? && m.payload == [] then None else Some(m.payload)
  {
    var body := if m.extension.Some? then m.extension.value.body else [];
    var hidden := Hidden(m);
    assert StripPadding(packet, hidden) == body + m.payload by {
      if m.padding.Some? {
        var count := hidden[|hidden| - 1] as int;
        assert count == |Padding(m)|;
        assert hidden[..|hidden| - count] == body + m.payload;
      } else {
        assert hidden == body + m.payload;
      }
    }
    assert (body + m.payload)[|body|..] == m.payload;
  }

  /** Padding is cut off if its count is possible, and only then. */
  lemma {:induction false} PaddingCutExactly(packet: seq<byte>, decrypted: seq<byte>)
    requires packet != []
    ensures var r := StripPadding(packet, decrypted);
            && r <= decrypted
            && |decrypted| - |r| ==
               if (packet[0] / 32) % 2 == 1 && decrypted != [] && 1 <= decrypted[|decrypted| - 1] as int <= |decrypted|
               then decrypted[|decrypted| - 1] as int else 0
  {
  }

  function BodyLength(m: Media): nat {
    if m.extension.Some? then 4 * m.extension.value.words else 0
  }

  /** A header is read exactly when it is all there, the extension's words included. */
  lemma {:induction false} HeaderReadIff(m: Media, tail: seq<byte>)
    requires ValidMedia(m)
    ensures ParseHeader(Clear(m) + tail) ==
            if |tail| < BodyLength(m) then None
            else Some(Header(m.sequence, m.timestamp, m.ssrc, |Clear(m)| + BodyLength(m), m.marker))
  {
    ClearFields(m, tail);
  }

  /** No beginning of a header is taken for one. */
  lemma {:induction false} CutHeaderIsRefused(m: Media, prefix: seq<byte>)
    requires ValidMedia(m) && prefix < Clear(m)
    ensures ParseHeader(prefix) == None
  {
    FirstByteFields(m);
    if |prefix| >= 12 {
      assert prefix[0] == Clear(m)[0] == FirstByte(m);
    }
  }

  /** Parsing, finding the associated data, decrypting and stripping recover what was sent, for every
      CSRC count, extension and padding. Dropped are RTCP (72..76), retransmissions (104 and 106) and an
      empty payload behind an extension, and nothing else. */
  lemma {:induction false} ReceiveInverts(c: Aead, nonce: u32, m: Media)
    requires Lawful(c) && ValidMedia(m)
    ensures ReceivePacket(c, OnWire(c, nonce, m)) ==
            if 72 <= m.payloadType <= 76 || m.payloadType == 104 || m.payloadType == 106 then None
            else if m.extension.Some? && m.payload == [] then None
            else Some(Received(m.payloadType as byte, m.sequence, m.timestamp, m.ssrc, m.marker, m.payload))
  {
    var tail := Sealed(c, nonce, Clear(m), Hidden(m));
    var packet := OnWire(c, nonce, m);
    ClearFields(m, tail);
    assert |tail| == |Hidden(m)| + 20;
    assert ParseHeader(packet).Some?;
    DecryptInverts(c, nonce, Clear(m), Hidden(m), packet);
    StripInverts(packet, m);
  }
}
