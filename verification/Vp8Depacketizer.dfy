/** The VP8 RTP depacketizer of `src/vp8.rs` and the payload descriptor of RFC 7741 section 4.2. */
module Vp8Depacketizer {
  import opened Bytes
  import H264Depacketizer

  type Frame = H264Depacketizer.Frame

  const MAX_VIDEO_FRAME_BYTES := H264Depacketizer.MAX_VIDEO_FRAME_BYTES

  function Bit(b: byte, weight: byte): bool
    requires weight != 0
  {
    (b / weight) % 2 == 1
  }

  // ---------------------------------------------------------------- payload descriptor

  /** Length of the descriptor and whether the packet starts partition 0. */
  datatype Parsed = Parsed(len: nat, start: bool)

  function ParseDescriptor(payload: seq<byte>): Option<Parsed> {
    if payload == [] then None
    else
      var start := Bit(payload[0], 0x10) && payload[0] % 16 == 0;
      if !Bit(payload[0], 0x80) then Some(Parsed(1, start))
      else if |payload| < 2 then None
      else
        var i, l := Bit(payload[1], 0x80), Bit(payload[1], 0x40);
        var t, k := Bit(payload[1], 0x20), Bit(payload[1], 0x10);
        if i && |payload| < 3 then None
        else
          var afterId := if !i then 2 else if Bit(payload[2], 0x80) then 4 else 3;
          var len := afterId + (if l then 1 else 0) + (if t || k then 1 else 0);
          if |payload| < len then None else Some(Parsed(len, start))
  }

  method ParsePayloadDescriptor(payload: seq<byte>) returns (r: Option<Parsed>)
    ensures r == ParseDescriptor(payload)
  {
    if payload == [] {
      return None;
    }
    var cursor := 1;
    var x, s := Bit(payload[0], 0x80), Bit(payload[0], 0x10);
    var partitionId := payload[0] % 16;
    if x {
      if |payload| < cursor + 1 {
        return None;
      }
      var i, l := Bit(payload[cursor], 0x80), Bit(payload[cursor], 0x40);
      var t, k := Bit(payload[cursor], 0x20), Bit(payload[cursor], 0x10);
      cursor := cursor + 1;
      if i {
        if |payload| < cursor + 1 {
          return None;
        }
        cursor := cursor + if Bit(payload[cursor], 0x80) then 2 else 1;
      }
      if l {
        cursor := cursor + 1;
      }
      if t || k {
        cursor := cursor + 1;
      }
    }
    if |payload| < cursor {
      return None;
    }
    return Some(Parsed(cursor, s && partitionId == 0));
  }

  type bits2 = x: int | 0 <= x < 4
  type bits4 = x: int | 0 <= x < 16
  type bits7 = x: int | 0 <= x < 128

  datatype PictureId = Short(id: bits7) | Long(high: bits7, low: byte)

  datatype Extension = Extension(
    pictureId: Option<PictureId>,
    tl0PicIdx: Option<byte>,
    t: bool, k: bool, tidKeyIdx: byte,
    reserved: bits4)

  /** A payload descriptor as RFC 7741 lays it out. */
  datatype Descriptor = Descriptor(rn: bits2, s: bool, partition: bits4, ext: Option<Extension>)

  function Flag(b: bool, weight: int): int {
    if b then weight else 0
  }

  function PictureIdBytes(id: Option<PictureId>): seq<byte> {
    match id
    case None => []
    case Some(Short(low)) => [low as byte]
    case Some(Long(high, low)) => [(128 + high) as byte, low]
  }

  function EncodeExtension(e: Extension): seq<byte> {
    [(Flag(e.pictureId.Some?, 128) + Flag(e.tl0PicIdx.Some?, 64) + Flag(e.t, 32) + Flag(e.k, 16) + e.reserved) as byte]
    + PictureIdBytes(e.pictureId)
    + (if e.tl0PicIdx.Some? then [e.tl0PicIdx.value] else [])
    + (if e.t || e.k then [e.tidKeyIdx] else [])
  }

  function Encode(d: Descriptor): seq<byte> {
    [(Flag(d.ext.Some?, 128) + 32 * d.rn + Flag(d.s, 16) + d.partition) as byte]
    + if d.ext.Some? then EncodeExtension(d.ext.value) else []
  }

  function StartsFrame(d: Descriptor): bool {
    d.s && d.partition == 0
  }

  lemma {:induction false} FirstByteBits(x: bool, rn: bits2, s: bool, partition: bits4)
    ensures var b := (Flag(x, 128) + 32 * rn + Flag(s, 16) + partition) as byte;
            (Bit(b, 0x80) <==> x) && (Bit(b, 0x10) <==> s) && b % 16 == partition as byte
  {
  }

  lemma {:induction false} SecondByteBits(i: bool, l: bool, t: bool, k: bool, reserved: bits4)
    ensures var b := (Flag(i, 128) + Flag(l, 64) + Flag(t, 32) + Flag(k, 16) + reserved) as byte;
            (Bit(b, 0x80) <==> i) && (Bit(b, 0x40) <==> l) && (Bit(b, 0x20) <==> t) && (Bit(b, 0x10) <==> k)
  {
  }

  /** Every descriptor the RFC allows is skipped exactly, whatever follows it. */
  lemma {:induction false} DescriptorRoundTrip(d: Descriptor, body: seq<byte>)
    ensures ParseDescriptor(Encode(d) + body) == Some(Parsed(|Encode(d)|, StartsFrame(d)))
  {
    FirstByteBits(d.ext.Some?, d.rn, d.s, d.partition);
    if d.ext.Some? {
      var e := d.ext.value;
      SecondByteBits(e.pictureId.Some?, e.tl0PicIdx.Some?, e.t, e.k, e.reserved);
    }
  }

  lemma SlicesJoin(b: seq<byte>, i: nat, j: nat, k: nat)
    requires i <= j <= k <= |b|
    ensures b[i..j] + b[j..k] == b[i..k]
  {
  }

  /** An optional byte at `i`. */
  lemma OptionalByte(b: seq<byte>, i: nat, present: bool)
    requires i + (if present then 1 else 0) <= |b|
    ensures b[i..i + if present then 1 else 0] == if present then [b[i]] else []
  {
  }

  function IdLength(payload: seq<byte>): nat
    requires ParseDescriptor(payload).Some? && Bit(payload[0], 0x80)
  {
    if !Bit(payload[1], 0x80) then 0 else if Bit(payload[2], 0x80) then 2 else 1
  }

  /** Where the parts of an accepted extension lie. */
  lemma {:induction false} PartsFit(payload: seq<byte>)
    requires ParseDescriptor(payload).Some? && Bit(payload[0], 0x80)
    ensures var (l, tk) := (Bit(payload[1], 0x40), Bit(payload[1], 0x20) || Bit(payload[1], 0x10));
            ParseDescriptor(payload).value.len == 2 + IdLength(payload) + (if l then 1 else 0) + (if tk then 1 else 0) <= |payload|
  {
  }

  /** The picture id that was read, and its bytes. */
  lemma {:induction false} PictureIdSound(payload: seq<byte>) returns (id: Option<PictureId>)
    requires ParseDescriptor(payload).Some? && Bit(payload[0], 0x80)
    ensures 2 + IdLength(payload) <= |payload|
    ensures id.Some? <==> Bit(payload[1], 0x80)
    ensures PictureIdBytes(id) == payload[2..2 + IdLength(payload)]
  {
    PartsFit(payload);
    if !Bit(payload[1], 0x80) {
      id := None;
    } else if Bit(payload[2], 0x80) {
      id := Some(Long((payload[2] as int) - 128, payload[3]));
      OptionalByte(payload, 2, true);
      OptionalByte(payload, 3, true);
      SlicesJoin(payload, 2, 3, 4);
    } else {
      id := Some(Short(payload[2] as int));
      OptionalByte(payload, 2, true);
    }
  }

  /** The extension part of an accepted descriptor is one that the RFC allows. */
  lemma {:induction false} ExtensionSound(payload: seq<byte>) returns (e: Extension)
    requires ParseDescriptor(payload).Some? && Bit(payload[0], 0x80)
    ensures ParseDescriptor(payload).value.len <= |payload|
    ensures EncodeExtension(e) == payload[1..ParseDescriptor(payload).value.len]
  {
    PartsFit(payload);
    var c := payload[1] as int;
    var i, l := Bit(payload[1], 0x80), Bit(payload[1], 0x40);
    var t, k := Bit(payload[1], 0x20), Bit(payload[1], 0x10);
    var pictureId := PictureIdSound(payload);
    var afterId := 2 + IdLength(payload);
    var afterL := afterId + (if l then 1 else 0);
    var len := ParseDescriptor(payload).value.len;
    e := Extension(pictureId, if l then Some(payload[afterId]) else None, t, k,
                   if t || k then payload[afterL] else 0, c % 16);
    SecondByteSplit(c, i, l, t, k);
    OptionalByte(payload, 1, true);
    OptionalByte(payload, afterId, l);
    OptionalByte(payload, afterL, t || k);
    SlicesJoin(payload, 1, 2, afterId);
    SlicesJoin(payload, 1, afterId, afterL);
    SlicesJoin(payload, 1, afterL, len);
  }

  /** Whatever the parser accepts begins with such a descriptor: nothing else is taken for one. */
  lemma {:induction false} DescriptorSound(payload: seq<byte>)
    requires ParseDescriptor(payload).Some?
    ensures var p := ParseDescriptor(payload).value;
            p.len <= |payload| && exists d :: Encode(d) == payload[..p.len] && StartsFrame(d) == p.start
  {
    var p := ParseDescriptor(payload).value;
    var b := payload[0] as int;
    var ext: Option<Extension> := None;
    if Bit(payload[0], 0x80) {
      var e := ExtensionSound(payload);
      ext := Some(e);
    }
    var d := Descriptor((b / 32) % 4, Bit(payload[0], 0x10), b % 16, ext);
    FirstByteSplit(b);
    assert Encode(d) == payload[..p.len];
  }

  lemma {:induction false} FirstByteSplit(b: int)
    requires 0 <= b < 256
    ensures b == 128 * (b / 128) + 32 * ((b / 32) % 4) + 16 * ((b / 16) % 2) + b % 16
  {
  }

  lemma {:induction false} SecondByteSplit(c: int, i: bool, l: bool, t: bool, k: bool)
    requires 0 <= c < 256
    requires (i <==> Bit(c as byte, 128)) && (l <==> Bit(c as byte, 64)) && (t <==> Bit(c as byte, 32)) && (k <==> Bit(c as byte, 16))
    ensures c == Flag(i, 128) + Flag(l, 64) + Flag(t, 32) + Flag(k, 16) + c % 16
  {
  }

  // ---------------------------------------------------------------- specification

  datatype State = State(timestamp: Option<u32>, buffer: seq<byte>, keyframe: bool, sawStart: bool)

  const INITIAL := State(None, [], false, false)

  function PrepareTimestamp(s: State, timestamp: u32): State {
    if s.timestamp == Some(timestamp) then s else State(Some(timestamp), [], false, false)
  }

  function PushBody(s: State, marker: bool, start: bool, body: seq<byte>): (State, Option<Frame>)
    requires body != []
  {
    if !start && !s.sawStart && s.buffer == [] then (s, None)
    else
      var s1 := if start then s.(sawStart := true, keyframe := body[0] % 2 == 0) else s;
      if |s1.buffer| + |body| > MAX_VIDEO_FRAME_BYTES then (INITIAL, None)
      else
        var s2 := s1.(buffer := s1.buffer + body);
        if marker then (INITIAL, Some(H264Depacketizer.Frame(s2.buffer, s2.keyframe))) else (s2, None)
  }

  function Push(s: State, timestamp: u32, marker: bool, payload: seq<byte>): (State, Option<Frame>) {
    match ParseDescriptor(payload)
    case None => (s, None)
    case Some(parsed) =>
      if parsed.len >= |payload| then (s, None)
      else PushBody(PrepareTimestamp(s, timestamp), marker, parsed.start, payload[parsed.len..])
  }

  /** No proper beginning of a descriptor is taken for one. */
  lemma {:induction false} CutDescriptorIsRefused(d: Descriptor, k: nat)
    requires k < |Encode(d)|
    ensures ParseDescriptor(Encode(d)[..k]) == None
  {
    FirstByteBits(d.ext.Some?, d.rn, d.s, d.partition);
    if d.ext.Some? {
      var e := d.ext.value;
      SecondByteBits(e.pictureId.Some?, e.tl0PicIdx.Some?, e.t, e.k, e.reserved);
      assert k >= 1 ==> Encode(d)[..k][0] == Encode(d)[0];
      assert k >= 2 ==> Encode(d)[..k][1] == EncodeExtension(e)[0];
      assert k >= 3 ==> Encode(d)[..k][2] == EncodeExtension(e)[1];
    }
  }

  /** A packet that ends within its descriptor, or right behind it, changes nothing. */
  lemma {:induction false} BodilessPacketsAreIgnored(s: State, timestamp: u32, marker: bool, d: Descriptor, k: nat)
    requires k <= |Encode(d)|
    ensures Push(s, timestamp, marker, Encode(d)[..k]) == (s, None)
  {
    if k < |Encode(d)| {
      CutDescriptorIsRefused(d, k);
    } else {
      assert Encode(d)[..k] == Encode(d) + [];
      DescriptorRoundTrip(d, []);
    }
  }
}
