/** The receive objects of `src/voice_conn.rs`: a gap detector before a depacketizer, and one such pair per
    SSRC. Every method is proved against the step of the same name in `VideoStream`. */
module VideoDepacketizers {
  import opened Bytes
  import opened Depacketizers
  import H264 = H264Depacketizer
  import VS = VideoStream

  class VideoDepacketizerState {
    const codec: VS.Codec
    const h264: H264Depacketizer
    const vp8: Vp8Depacketizer
    var lastSequence: Option<u16>

    ghost function Parts(): set<object> {
      {this, h264, vp8}
    }

    function AsState(): VS.State
      reads this, h264, vp8
    {
      VS.State(codec, lastSequence, h264.AsState(), vp8.AsState())
    }

    constructor (codec: VS.Codec)
      ensures AsState() == VS.Fresh(codec)
      ensures fresh(Parts())
    {
      this.codec := codec;
      lastSequence := None;
      h264 := new H264Depacketizer();
      vp8 := new Vp8Depacketizer();
    }

    method ClearPartialFrame()
      modifies h264, vp8
      ensures AsState() == VS.ClearPartialFrame(old(AsState()))
    {
      h264.Reset();
      vp8.Reset();
    }

    method Push(sequence: u16, timestamp: u32, marker: bool, payload: seq<byte>) returns (frame: Option<VS.Frame>)
      modifies this, h264, vp8
      ensures (AsState(), frame) == VS.Push(old(AsState()), sequence, H264.Packet(timestamp, marker, payload))
    {
      if lastSequence.Some? {
        var expectedSequence := VS.NextSequence(lastSequence.value);
        if expectedSequence != sequence {
          ClearPartialFrame();
        }
      }
      lastSequence := Some(sequence);
      match codec {
        case H264Codec => frame := h264.Push(timestamp, marker, payload);
        case Vp8Codec => frame := vp8.Push(timestamp, marker, payload);
      }
    }
  }

  class VideoDepacketizers {
    var bySsrc: map<u32, VideoDepacketizerState>

    ghost var Streams: map<u32, VS.State>  // what the stream objects hold
    ghost var Repr: set<object>

    ghost predicate Separate()
      reads this`bySsrc, this`Repr
    {
      && this !in Repr
      && (forall a | a in bySsrc :: bySsrc[a].Parts() <= Repr)
      && (forall a, b | a in bySsrc && b in bySsrc && a != b ::
           bySsrc[a] != bySsrc[b] && bySsrc[a].h264 != bySsrc[b].h264 && bySsrc[a].vp8 != bySsrc[b].vp8)
    }

    ghost predicate Valid()
      reads this, Repr
    {
      && Separate()
      && bySsrc.Keys == Streams.Keys
      && forall a | a in bySsrc :: bySsrc[a].AsState() == Streams[a]
    }

    constructor ()
      ensures Valid() && fresh(Repr) && Streams == map[]
    {
      bySsrc, Streams := map[], map[];
      Repr := {};
    }

    method Install(ssrc: u32, codec: VS.Codec)
      requires Valid()
      modifies this
      ensures Valid() && fresh(Repr - old(Repr))
      ensures Streams == old(Streams)[ssrc := VS.Fresh(codec)]
    {
      var state := new VideoDepacketizerState(codec);
      bySsrc := bySsrc[ssrc := state];
      Streams := Streams[ssrc := VS.Fresh(codec)];
      Repr := Repr + state.Parts();
    }

    method FindOrInstall(ssrc: u32, codec: VS.Codec)
      requires Valid()
      modifies this
      ensures Valid() && fresh(Repr - old(Repr))
      ensures Streams == old(Streams)[ssrc := VS.Meets(old(Streams), ssrc, codec)]
    {
      if ssrc !in bySsrc {
        Install(ssrc, codec);
      }
      if bySsrc[ssrc].codec != codec {
        Install(ssrc, codec);
      }
    }

    method Push(a: VS.Arrival) returns (frame: Option<VS.Frame>)
      requires Valid()
      modifies this, Repr
      ensures Valid() && fresh(Repr - old(Repr))
      ensures (Streams, frame) == VS.PushTo(old(Streams), a)
    {
      FindOrInstall(a.ssrc, a.codec);
      ghost var met := Streams;
      frame := PushInstalled(a.ssrc, a.sequence, a.packet);
      assert met[a.ssrc := Streams[a.ssrc]] == old(Streams)[a.ssrc := Streams[a.ssrc]];
    }

    /** The stream objects other than that of `ssrc` hold these streams. */
    ghost predicate OthersHold(streams: map<u32, VS.State>, ssrc: u32)
      reads this`bySsrc, this`Repr, Repr
      requires Separate()
    {
      forall a | a in bySsrc && a != ssrc :: a in streams && bySsrc[a].AsState() == streams[a]
    }

    method PushInstalled(ssrc: u32, sequence: u16, p: VS.Packet) returns (frame: Option<VS.Frame>)
      requires Valid() && ssrc in bySsrc
      modifies this`Streams, bySsrc[ssrc].Parts()
      ensures Valid() && ssrc in old(Streams)
      ensures Streams == old(Streams)[ssrc := VS.Push(old(Streams)[ssrc], sequence, p).0]
      ensures frame == VS.Push(old(Streams)[ssrc], sequence, p).1
    {
      frame := PushStored(ssrc, sequence, p, Streams);
      Record(ssrc);
    }

    ghost method Record(ssrc: u32)
      requires Separate() && ssrc in bySsrc && OthersHold(Streams, ssrc) && bySsrc.Keys == Streams.Keys
      modifies this`Streams
      ensures Valid() && Streams == old(Streams)[ssrc := bySsrc[ssrc].AsState()]
    {
      Streams := Streams[ssrc := bySsrc[ssrc].AsState()];
    }

    /** Pushing to one stream object leaves the others alone. */
    method PushStored(ssrc: u32, sequence: u16, p: VS.Packet, ghost streams: map<u32, VS.State>) returns (frame: Option<VS.Frame>)
      requires Separate() && ssrc in bySsrc && OthersHold(streams, ssrc)
      modifies bySsrc[ssrc].Parts()
      ensures Separate() && OthersHold(streams, ssrc)
      ensures (bySsrc[ssrc].AsState(), frame) == VS.Push(old(bySsrc[ssrc].AsState()), sequence, p)
    {
      frame := bySsrc[ssrc].Push(sequence, p.timestamp, p.marker, p.payload);
    }

    method PrependCachedH264Params(ssrc: u32, frame: seq<byte>) returns (out: seq<byte>)
      requires Valid()
      ensures out == if ssrc in Streams then H264.Prepended(Streams[ssrc].h264, frame) else frame
    {
      if ssrc in bySsrc {
        out := bySsrc[ssrc].h264.PrependCachedParameterSets(frame);
      } else {
        out := frame;
      }
    }
  }
}
