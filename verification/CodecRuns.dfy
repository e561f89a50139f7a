/** What a codec switch on a video stream does, said from the packets that arrive: each stretch of packets of
    one codec is received as if the stream began with it. */
module CodecRuns {
  import opened Bytes
  import opened VideoStream

  function Numbers(arrivals: seq<Arrival>): seq<Numbered> {
    if arrivals == [] then []
    else [Numbered(arrivals[0].sequence, arrivals[0].packet)] + Numbers(arrivals[1..])
  }

  ghost predicate AllOf(arrivals: seq<Arrival>, codec: Codec) {
    forall k | 0 <= k < |arrivals| :: arrivals[k].codec == codec
  }

  lemma {:induction false} RunManyAppend(m: map<u32, State>, a: seq<Arrival>, b: seq<Arrival>)
    ensures RunMany(m, a + b) ==
            (RunMany(RunMany(m, a).0, b).0, RunMany(m, a).1 + RunMany(RunMany(m, a).0, b).1)
    decreases |a|
  {
    if a == [] {
      assert a + b == b;
      assert [] + RunMany(m, b).1 == RunMany(m, b).1;
    } else {
      assert (a + b)[1..] == a[1..] + b;
      var (m1, out) := PushTo(m, a[0]);
      RunManyAppend(m1, a[1..], b);
      Assoc([out], RunMany(m1, a[1..]).1, RunMany(RunMany(m, a).0, b).1);
    }
  }

  /** In every run, what is stored for an SSRC has the codec and the sequence number of its last packet. */
  lemma {:induction false} LastArrivalIsStored(m: map<u32, State>, arrivals: seq<Arrival>, ssrc: u32)
    ensures var (m', own) := (RunMany(m, arrivals).0, Own(arrivals, ssrc));
            if own == [] then SameStream(m', m, ssrc)
            else
              && ssrc in m'
              && m'[ssrc].codec == own[|own| - 1].codec
              && m'[ssrc].lastSequence == Some(own[|own| - 1].sequence)
    decreases |arrivals|
  {
    if arrivals != [] {
      LastArrivalIsStored(PushTo(m, arrivals[0]).0, arrivals[1..], ssrc);
    }
  }

  /** The stream that packets of `codec` go on with. */
  function Continued(m: map<u32, State>, ssrc: u32, codec: Codec): State {
    if ssrc in m && m[ssrc].codec == codec then m[ssrc] else Fresh(codec)
  }

  lemma {:induction false} PushAllOne(s: State, n: Numbered, rest: seq<Numbered>)
    ensures var (s1, out) := Push(s, n.sequence, n.packet);
            PushAll(s, [n] + rest) == (PushAll(s1, rest).0, [out] + PushAll(s1, rest).1)
  {
    assert ([n] + rest)[1..] == rest;
  }

  /** Packets of one SSRC and one codec. */
  lemma {:induction false} OneCodec(m: map<u32, State>, own: seq<Arrival>, ssrc: u32, codec: Codec)
    requires AllOf(own, codec) && forall k | 0 <= k < |own| :: own[k].ssrc == ssrc
    ensures var received := PushAll(Continued(m, ssrc, codec), Numbers(own));
            RunMany(m, own).1 == received.1 && Continued(RunMany(m, own).0, ssrc, codec) == received.0
    decreases |own|
  {
    if own != [] {
      OneCodec(PushTo(m, own[0]).0, own[1..], ssrc, codec);
      PushAllOne(Continued(m, ssrc, codec), Numbered(own[0].sequence, own[0].packet), Numbers(own[1..]));
    }
  }

  lemma {:induction false} OwnHasSsrc(arrivals: seq<Arrival>, ssrc: u32)
    ensures forall k | 0 <= k < |Own(arrivals, ssrc)| :: Own(arrivals, ssrc)[k].ssrc == ssrc
  {
    if arrivals != [] { OwnHasSsrc(arrivals[1..], ssrc); }
  }

  /** From the first packet of a new SSRC or of another codec than the one before, and as long as the codec
      stays, the outputs are those of a new stream that gets these packets alone. */
  lemma {:induction false} CodecRunStartsFresh(before: seq<Arrival>, run: seq<Arrival>, ssrc: u32, codec: Codec)
    requires AllOf(Own(run, ssrc), codec) && Own(run, ssrc) != []
    requires var own := Own(before, ssrc); own == [] || own[|own| - 1].codec != codec
    ensures var (streams, outs) := RunMany(map[], before + run);
            var received := PushAll(Fresh(codec), Numbers(Own(run, ssrc)));
            && |outs| == |before| + |run|
            && OwnOutputs(run, outs[|before|..], ssrc) == received.1
            && ssrc in streams && streams[ssrc] == received.0
  {
    var m := RunMany(map[], before).0;
    RunManyLength(map[], before);
    RunManyAppend(map[], before, run);
    LastArrivalIsStored(map[], before, ssrc);
    LastArrivalIsStored(m, run, ssrc);
    SsrcIsolation(m, m, run, ssrc);
    OwnHasSsrc(run, ssrc);
    OneCodec(m, Own(run, ssrc), ssrc, codec);
    LastArrivalIsStored(m, Own(run, ssrc), ssrc);
    assert RunMany(map[], before + run).1[|before|..] == RunMany(m, run).1;
  }
}
