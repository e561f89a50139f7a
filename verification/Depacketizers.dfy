/** The depacketizer objects of `src/h264.rs` and `src/vp8.rs`: each method updates the fields as the step of
    the same name in `H264Depacketizer` or `Vp8Depacketizer` says. */
module Depacketizers {
  import opened Bytes
  import opened AnnexB
  import H264 = H264Depacketizer
  import Vp8 = Vp8Depacketizer

  class H264Depacketizer {
    var timestamp: Option<u32>
    var buffer: seq<byte>
    var keyframe: bool
    var inFu: bool
    var cachedSps: Option<seq<byte>>
    var cachedPps: Option<seq<byte>>

    function AsState(): H264.State
      reads this
    {
      H264.State(timestamp, buffer, keyframe, inFu, cachedSps, cachedPps)
    }

    constructor ()
      ensures AsState() == H264.INITIAL
    {
      timestamp, buffer, keyframe, inFu := None, [], false, false;
      cachedSps, cachedPps := None, None;
    }

    method Reset()
      modifies this
      ensures AsState() == H264.Reset(old(AsState()))
    {
      timestamp := None;
      buffer := [];
      keyframe := false;
      inFu := false;
    }

    method PrepareTimestamp(ts: u32)
      modifies this
      ensures AsState() == H264.PrepareTimestamp(old(AsState()), ts)
    {
      if timestamp != Some(ts) {
        timestamp := Some(ts);
        buffer := [];
        keyframe := false;
        inFu := false;
      }
    }

    method CacheParameterSet(nalType: int, nalu: seq<byte>)
      modifies this
      ensures AsState() == H264.CacheParameterSet(old(AsState()), nalType, nalu)
    {
      match nalType {
        case 7 => cachedSps := Some(nalu);
        case 8 => cachedPps := Some(nalu);
        case _ =>
      }
    }

    method AppendStartCode()
      modifies this
      ensures AsState() == H264.AppendStartCode(old(AsState()))
    {
      buffer := buffer + [0, 0, 0, 1];
    }

    method Extend(bytes: seq<byte>) returns (ok: bool)
      modifies this
      ensures (AsState(), ok) == H264.Extend(old(AsState()), bytes)
    {
      if |buffer| + |bytes| > H264.MAX_VIDEO_FRAME_BYTES {
        Reset();
        return false;
      }
      buffer := buffer + bytes;
      return true;
    }

    /** One aggregation unit. */
    method PushUnit(nalu: seq<byte>) returns (ok: bool)
      requires nalu != []
      modifies this
      ensures (AsState(), ok) == H264.PushUnit(old(AsState()), nalu)
    {
      var t := NalType(nalu[0]);
      CacheParameterSet(t, nalu);
      if t == 5 {
        keyframe := true;
      }
      AppendStartCode();
      ok := Extend(nalu);
    }

    method PushStap(payload: seq<byte>) returns (ok: bool)
      modifies this
      ensures (AsState(), ok) == H264.PushStap(old(AsState()), payload, 1)
    {
      var cursor := 1;
      while cursor + 2 <= |payload|
        invariant H264.PushStap(AsState(), payload, cursor) == H264.PushStap(old(AsState()), payload, 1)
        decreases |payload| - cursor
      {
        var len := H264.U16At(payload, cursor);
        cursor := cursor + 2;
        if len == 0 || cursor + len > |payload| {
          Reset();
          return false;
        }
        var fitted := PushUnit(payload[cursor..cursor + len]);
        if !fitted {
          return false;
        }
        cursor := cursor + len;
      }
      return true;
    }

    method Push(ts: u32, marker: bool, payload: seq<byte>) returns (frame: Option<H264.Frame>)
      modifies this
      ensures (AsState(), frame) == H264.Push(old(AsState()), ts, marker, payload)
    {
      if payload == [] {
        return None;
      }
      PrepareTimestamp(ts);
      ghost var prepared := AsState();
      var t := NalType(payload[0]);
      if 1 <= t <= 23 {
        CacheParameterSet(t, payload);
        AppendStartCode();
        var ok := Extend(payload);
        if !ok { return None; }
        if t == 5 {
          keyframe := true;
        }
        inFu := false;
      } else if t == 24 {
        var ok := PushStap(payload);
        if !ok { return None; }
      } else if t == 28 {
        if |payload| < 2 {
          return None;
        }
        var fuHeader := payload[1];
        var fuType := NalType(fuHeader);
        if fuHeader >= 0x80 {
          AppendStartCode();
          var ok := Extend([H264.FuHeaderByte(payload[0], fuHeader)]);
          if !ok { return None; }
          ok := Extend(payload[2..]);
          if !ok { return None; }
          inFu := true;
          if fuType == 5 {
            keyframe := true;
          }
        } else {
          if !inFu {
            return None;
          }
          var ok := Extend(payload[2..]);
          if !ok { return None; }
          if (fuHeader / 64) % 2 == 1 {
            inFu := false;
          }
        }
      } else {
        return None;
      }
      assert (AsState(), true) == H264.PushPayload(prepared, payload);

      if marker && buffer != [] {
        var idr := HasIdrSlice(buffer);
        frame := Some(H264.Frame(buffer, keyframe || idr));
        buffer := [];
        timestamp := None;
        keyframe := false;
        inFu := false;
        return;
      }
      return None;
    }

    method PrependCachedParameterSets(frame: seq<byte>) returns (out: seq<byte>)
      ensures out == H264.Prepended(AsState(), frame)
    {
      var hasSps := AnnexBContainsNalType(frame, 7);
      var hasPps := AnnexBContainsNalType(frame, 8);
      if hasSps && hasPps {
        return frame;
      }
      var sps := if !hasSps then cachedSps else None;
      var pps := if !hasPps then cachedPps else None;
      if sps.None? && pps.None? {
        return frame;
      }
      out := [];
      if sps.Some? {
        out := H264.START_CODE;
        out := out + sps.value;
      }
      assert out == H264.WithCode(sps);
      if pps.Some? {
        Assoc(out, H264.START_CODE, pps.value);
        out := out + H264.START_CODE;
        out := out + pps.value;
      }
      assert out == H264.WithCode(sps) + H264.WithCode(pps);
      out := out + frame;
    }
  }

  class Vp8Depacketizer {
    var timestamp: Option<u32>
    var buffer: seq<byte>
    var keyframe: bool
    var sawPartitionStart: bool

    function AsState(): Vp8.State
      reads this
    {
      Vp8.State(timestamp, buffer, keyframe, sawPartitionStart)
    }

    constructor ()
      ensures AsState() == Vp8.INITIAL
    {
      timestamp, buffer, keyframe, sawPartitionStart := None, [], false, false;
    }

    method Reset()
      modifies this
      ensures AsState() == Vp8.INITIAL
    {
      timestamp := None;
      buffer := [];
      keyframe := false;
      sawPartitionStart := false;
    }

    method Push(ts: u32, marker: bool, payload: seq<byte>) returns (frame: Option<H264.Frame>)
      modifies this
      ensures (AsState(), frame) == Vp8.Push(old(AsState()), ts, marker, payload)
    {
      var parsed := Vp8.ParsePayloadDescriptor(payload);
      if parsed.None? || parsed.value.len >= |payload| {
        return None;
      }
      var body := payload[parsed.value.len..];
      if timestamp != Some(ts) {
        timestamp := Some(ts);
        buffer := [];
        keyframe := false;
        sawPartitionStart := false;
      }
      if parsed.value.start {
        sawPartitionStart := true;
        keyframe := body[0] % 2 == 0;
      } else if !sawPartitionStart && buffer == [] {
        return None;
      }
      if |buffer| + |body| > Vp8.MAX_VIDEO_FRAME_BYTES {
        Reset();
        return None;
      }
      buffer := buffer + body;
      if marker && buffer != [] {
        frame := Some(H264.Frame(buffer, keyframe));
        Reset();
        return;
      }
      return None;
    }
  }
}
