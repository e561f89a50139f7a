/** Which parameter sets the H.264 depacketizer holds: the latest that arrived complete, in a packet of its
    own or in an aggregation packet. */
module ParameterSets {
  import opened Bytes
  import opened H264Depacketizer
  import opened StapA
  import VS = VideoStream

  /** A payload by its content. */
  datatype Load =
    | Single(nal: seq<byte>)
    | Aggregate(header: byte, nals: seq<seq<byte>>, rest: seq<byte>)
    | Other(payload: seq<byte>)  // fragments, types that are ignored, and nothing at all

  ghost predicate ValidLoad(l: Load) {
    match l
    case Single(nal) => nal != [] && 1 <= NalType(nal[0]) <= 23
    case Aggregate(header, nals, rest) => NalType(header) == 24 && Packable(nals) && Rest(rest)
    case Other(payload) => payload == [] || NalType(payload[0]) == 0 || NalType(payload[0]) > 24
  }

  ghost function PayloadOf(l: Load): seq<byte>
    requires ValidLoad(l)
  {
    match l
    case Single(nal) => nal
    case Aggregate(header, nals, rest) => Stap(header, nals) + rest
    case Other(payload) => payload
  }

  /** Every payload has such a content. */
  lemma {:induction false} EveryPayload(payload: seq<byte>) returns (l: Load)
    ensures ValidLoad(l) && PayloadOf(l) == payload
  {
    if payload == [] || NalType(payload[0]) == 0 || NalType(payload[0]) > 24 {
      l := Other(payload);
    } else if NalType(payload[0]) < 24 {
      l := Single(payload);
    } else {
      var nals, rest := UnitsAndRest(payload[1..]);
      l := Aggregate(payload[0], nals, rest);
      Assoc([payload[0]], Units(nals), rest);
    }
  }

  /** The complete NAL units that the depacketizer looks at in it while it holds `held` bytes. */
  function Complete(held: nat, l: Load): seq<seq<byte>> {
    match l
    case Single(nal) => [nal]
    case Aggregate(_, nals, _) => Looked(held, nals)
    case Other(_) => []
  }

  datatype Arrival = Arrival(timestamp: u32, marker: bool, load: Load)

  ghost predicate AllValid(rs: seq<Arrival>) {
    forall k | 0 <= k < |rs| :: ValidLoad(rs[k].load)
  }

  ghost function PacketsOf(rs: seq<Arrival>): seq<Packet>
    requires AllValid(rs)
  {
    if rs == [] then [] else [Packet(rs[0].timestamp, rs[0].marker, PayloadOf(rs[0].load))] + PacketsOf(rs[1..])
  }

  /** The complete NAL units of a run, in order. */
  ghost function AllComplete(s: State, rs: seq<Arrival>): seq<seq<byte>>
    requires AllValid(rs)
    decreases |rs|
  {
    if rs == [] then []
    else
      Complete(|PrepareTimestamp(s, rs[0].timestamp).buffer|, rs[0].load)
      + AllComplete(Push(s, rs[0].timestamp, rs[0].marker, PayloadOf(rs[0].load)).0, rs[1..])
  }

  lemma {:induction false} LatestConcat(before: Option<seq<byte>>, a: seq<seq<byte>>, b: seq<seq<byte>>, t: int)
    ensures Latest(before, a + b, t) == Latest(Latest(before, a, t), b, t)
    decreases |b|
  {
    if b == [] {
      assert a + b == a;
    } else {
      assert (a + b)[..|a + b| - 1] == a + b[..|b| - 1];
      LatestConcat(before, a, b[..|b| - 1], t);
    }
  }

  lemma {:induction false} SingleSets(s: State, nal: seq<byte>)
    requires nal != [] && 1 <= NalType(nal[0]) <= 23
    ensures var s' := PushPayload(s, nal).0; s'.sps == Latest(s.sps, [nal], 7) && s'.pps == Latest(s.pps, [nal], 8)
  {
    assert [nal][..0] == [];
  }

  lemma {:induction false} OtherSets(s: State, payload: seq<byte>)
    requires payload != [] && (NalType(payload[0]) == 0 || NalType(payload[0]) > 24)
    ensures var s' := PushPayload(s, payload).0; s'.sps == s.sps && s'.pps == s.pps
  {
  }

  /** Neither a new timestamp nor a completed frame touches the parameter sets. */
  lemma {:induction false} PushSets(s: State, timestamp: u32, marker: bool, payload: seq<byte>)
    requires payload != []
    ensures var (s', s1) := (Push(s, timestamp, marker, payload).0, PushPayload(PrepareTimestamp(s, timestamp), payload).0);
            s'.sps == s1.sps && s'.pps == s1.pps
  {
  }

  lemma {:induction false} OneLoad(s: State, timestamp: u32, marker: bool, l: Load)
    requires Valid(s) && ValidLoad(l)
    ensures var s' := Push(s, timestamp, marker, PayloadOf(l)).0;
            var units := Complete(|PrepareTimestamp(s, timestamp).buffer|, l);
            && s'.sps == Latest(s.sps, units, 7) && s'.pps == Latest(s.pps, units, 8)
  {
    if PayloadOf(l) != [] {
      PushSets(s, timestamp, marker, PayloadOf(l));
    }
    var s1 := PrepareTimestamp(s, timestamp);
    match l
    case Single(nal) => SingleSets(s1, nal);
    case Aggregate(header, nals, rest) => AggregationAppends(s1, header, nals, rest);
    case Other(payload) => if payload != [] { OtherSets(s1, payload); }
  }

  lemma {:induction false} RunHolds(s: State, rs: seq<Arrival>)
    requires Valid(s) && AllValid(rs)
    ensures var s' := Run(s, PacketsOf(rs)).0;
            && s'.sps == Latest(s.sps, AllComplete(s, rs), 7)
            && s'.pps == Latest(s.pps, AllComplete(s, rs), 8)
    decreases |rs|
  {
    if rs != [] {
      var (p, l) := (Packet(rs[0].timestamp, rs[0].marker, PayloadOf(rs[0].load)), rs[0].load);
      var s1 := Push(s, p.timestamp, p.marker, p.payload).0;
      var units := Complete(|PrepareTimestamp(s, p.timestamp).buffer|, l);
      PushKeepsValid(s, p.timestamp, p.marker, p.payload);
      OneLoad(s, p.timestamp, p.marker, l);
      RunHolds(s1, rs[1..]);
      LatestConcat(s.sps, units, AllComplete(s1, rs[1..]), 7);
      LatestConcat(s.pps, units, AllComplete(s1, rs[1..]), 8);
      assert PacketsOf(rs)[1..] == PacketsOf(rs[1..]);
    }
  }

  /** After any run, the cached parameter sets are the latest complete NAL units of types 7 and 8. */
  lemma {:induction false} CachedAreLatest(rs: seq<Arrival>)
    requires AllValid(rs)
    ensures var s := Run(INITIAL, PacketsOf(rs)).0;
            && s.sps == Latest(None, AllComplete(INITIAL, rs), 7)
            && s.pps == Latest(None, AllComplete(INITIAL, rs), 8)
  {
    RunHolds(INITIAL, rs);
  }

  // ---------------------------------------------------------------- behind the gap detector

  datatype Numbered = Numbered(sequence: u16, arrival: Arrival)

  ghost predicate AllValidN(rs: seq<Numbered>) {
    forall k | 0 <= k < |rs| :: ValidLoad(rs[k].arrival.load)
  }

  ghost function PacketOf(r: Arrival): Packet
    requires ValidLoad(r.load)
  {
    Packet(r.timestamp, r.marker, PayloadOf(r.load))
  }

  ghost function NumberedPackets(rs: seq<Numbered>): seq<VS.Numbered>
    requires AllValidN(rs)
  {
    if rs == [] then [] else [VS.Numbered(rs[0].sequence, PacketOf(rs[0].arrival))] + NumberedPackets(rs[1..])
  }

  /** The complete NAL units that a stream with gaps looks at. */
  ghost function StreamComplete(s: VS.State, rs: seq<Numbered>): seq<seq<byte>>
    requires AllValidN(rs)
    decreases |rs|
  {
    if rs == [] then []
    else
      var (q, r) := (rs[0].sequence, rs[0].arrival);
      Complete(|PrepareTimestamp(VS.Accept(s, q).h264, r.timestamp).buffer|, r.load)
      + StreamComplete(VS.Push(s, q, PacketOf(r)).0, rs[1..])
  }

  lemma {:induction false} OneNumbered(s: VS.State, q: u16, r: Arrival)
    requires s.codec == VS.H264Codec && Valid(s.h264) && ValidLoad(r.load)
    ensures var s' := VS.Push(s, q, PacketOf(r)).0;
            var units := Complete(|PrepareTimestamp(VS.Accept(s, q).h264, r.timestamp).buffer|, r.load);
            && s'.codec == VS.H264Codec && Valid(s'.h264)
            && s'.h264.sps == Latest(s.h264.sps, units, 7) && s'.h264.pps == Latest(s.h264.pps, units, 8)
  {
    var h := VS.Accept(s, q).h264;
    assert Valid(h);
    PushKeepsValid(h, r.timestamp, r.marker, PayloadOf(r.load));
    OneLoad(h, r.timestamp, r.marker, r.load);
  }

  /** No gap, repetition or reordering costs a parameter set: a stream holds the latest that arrived complete. */
  lemma {:induction false} StreamHoldsLatest(s: VS.State, rs: seq<Numbered>)
    requires s.codec == VS.H264Codec && Valid(s.h264) && AllValidN(rs)
    ensures var s' := VS.PushAll(s, NumberedPackets(rs)).0;
            && s'.h264.sps == Latest(s.h264.sps, StreamComplete(s, rs), 7)
            && s'.h264.pps == Latest(s.h264.pps, StreamComplete(s, rs), 8)
    decreases |rs|
  {
    if rs != [] {
      var (q, r) := (rs[0].sequence, rs[0].arrival);
      var s1 := VS.Push(s, q, PacketOf(r)).0;
      var units := Complete(|PrepareTimestamp(VS.Accept(s, q).h264, r.timestamp).buffer|, r.load);
      OneNumbered(s, q, r);
      StreamHoldsLatest(s1, rs[1..]);
      LatestConcat(s.h264.sps, units, StreamComplete(s1, rs[1..]), 7);
      LatestConcat(s.h264.pps, units, StreamComplete(s1, rs[1..]), 8);
      PushAllFirst(s, VS.Numbered(q, PacketOf(r)), NumberedPackets(rs[1..]));
    }
  }

  lemma {:induction false} PushAllFirst(s: VS.State, n: VS.Numbered, rest: seq<VS.Numbered>)
    ensures VS.PushAll(s, [n] + rest).0 == VS.PushAll(VS.Push(s, n.sequence, n.packet).0, rest).0
  {
    assert ([n] + rest)[1..] == rest;
  }
}
