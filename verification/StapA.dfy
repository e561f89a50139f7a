/** What an aggregation packet (STAP-A, RFC 6184 section 5.7.1) does, said from its bytes: every payload of
    type 24 is a list of aggregation units, and whole units are appended, a stray byte is ignored, and a
    unit without length or beyond the payload's end drops the partial frame. */
module StapA {
  import opened Bytes
  import opened AnnexB
  import opened AnnexBRewrite
  import opened H264Depacketizer

  // ---------------------------------------------------------------- layout

  /** The NAL units that a two-byte length can announce. */
  ghost predicate Packable(nals: seq<seq<byte>>) {
    forall k | 0 <= k < |nals| :: 0 < |nals[k]| < 65536
  }

  /** A NAL unit behind its length, high byte first. */
  function UnitBytes(nal: seq<byte>): (b: seq<byte>)
    requires |nal| < 65536
    ensures |b| == 2 + |nal|
  {
    [(|nal| / 256) as byte, (|nal| % 256) as byte] + nal
  }

  function Units(nals: seq<seq<byte>>): seq<byte>
    requires Packable(nals)
  {
    if nals == [] then []
    else UnitBytes(nals[0]) + Units(nals[1..])
  }

  function Stap(header: byte, nals: seq<seq<byte>>): seq<byte>
    requires Packable(nals)
  {
    [header] + Units(nals)
  }

  /** What cannot be read as another unit: its length is zero or points beyond the end. */
  predicate BadUnit(b: seq<byte>) {
    |b| >= 2 && ((b[0] == 0 && b[1] == 0) || 256 * (b[0] as int) + (b[1] as int) > |b| - 2)
  }

  predicate Rest(b: seq<byte>) {
    |b| < 2 || BadUnit(b)
  }

  /** Every payload behind its header byte is whole units and a rest. */
  lemma {:induction false} UnitsAndRest(b: seq<byte>) returns (nals: seq<seq<byte>>, rest: seq<byte>)
    ensures Packable(nals) && Rest(rest) && b == Units(nals) + rest
    decreases |b|
  {
    if Rest(b) {
      nals, rest := [], b;
    } else {
      var len := 256 * (b[0] as int) + (b[1] as int);
      var more;
      more, rest := UnitsAndRest(b[2 + len..]);
      nals := [b[2..2 + len]] + more;
      UnitsCons(b[2..2 + len], more);
      LengthBytes(b[0], b[1]);
      assert b == UnitBytes(b[2..2 + len]) + b[2 + len..];
      Assoc(UnitBytes(b[2..2 + len]), Units(more), rest);
    }
  }

  lemma {:induction false} LengthBytes(hi: byte, lo: byte)
    ensures var len := 256 * (hi as int) + (lo as int); len < 65536 && len / 256 == hi as int && len % 256 == lo as int
  {
  }

  lemma {:induction false} UnitsCons(nal: seq<byte>, more: seq<seq<byte>>)
    requires Packable(more) && 0 < |nal| < 65536
    ensures Packable([nal] + more)
    ensures Units([nal] + more) == UnitBytes(nal) + Units(more)
  {
    assert ([nal] + more)[1..] == more;
  }

  // ---------------------------------------------------------------- what the loop takes

  /** The units that the depacketizer looks at when it holds `held` bytes: up to the first that does not fit. */
  function Looked(held: nat, nals: seq<seq<byte>>): seq<seq<byte>>
    decreases |nals|
  {
    if nals == [] then []
    else [nals[0]] + if held + 4 + |nals[0]| > 8 * 1024 * 1024 then [] else Looked(held + 4 + |nals[0]|, nals[1..])
  }

  /** The latest NAL unit of type `t`, or `before` if there is none. */
  function Latest(before: Option<seq<byte>>, nals: seq<seq<byte>>, t: int): Option<seq<byte>> {
    if nals == [] then before
    else
      var nal := nals[|nals| - 1];
      if nal != [] && NalType(nal[0]) == t then Some(nal) else Latest(before, nals[..|nals| - 1], t)
  }

  lemma {:induction false} LatestCons(before: Option<seq<byte>>, nal: seq<byte>, more: seq<seq<byte>>, t: int)
    ensures Latest(before, [nal] + more, t) == Latest(if nal != [] && NalType(nal[0]) == t then Some(nal) else before, more, t)
    decreases |more|
  {
    var all := [nal] + more;
    if more == [] {
      assert all[..0] == [];
    } else {
      assert all[..|all| - 1] == [nal] + more[..|more| - 1];
      LatestCons(before, nal, more[..|more| - 1], t);
    }
  }

  /** Reading one unit behind `before`. */
  lemma {:induction false} StapUnitAt(s: State, before: seq<byte>, nal: seq<byte>, tail: seq<byte>)
    requires 0 < |nal| < 65536
    ensures var (s1, ok) := PushUnit(s, nal);
            var consumed := before + UnitBytes(nal);
            PushStap(s, before + (UnitBytes(nal) + tail), |before|)
            == if ok then PushStap(s1, consumed + tail, |consumed|) else (s1, false)
  {
    var payload := before + (UnitBytes(nal) + tail);
    Assoc(before, UnitBytes(nal), tail);
    assert U16At(payload, |before|) == |nal|;
    assert payload[|before| + 2..|before| + 2 + |nal|] == nal;
  }

  lemma {:induction false} RestAt(s: State, before: seq<byte>, rest: seq<byte>)
    requires Rest(rest)
    ensures PushStap(s, before + rest, |before|) == if |rest| < 2 then (s, true) else (Reset(s), false)
  {
    if |rest| >= 2 {
      var payload := before + rest;
      assert payload[|before|] == rest[0] && payload[|before| + 1] == rest[1];
    }
  }

  /** The effect of whole units and a rest: all of them or, if they do not fit or the rest is bad, nothing. */
  ghost predicate Appended(s: State, nals: seq<seq<byte>>, rest: seq<byte>, s': State, ok: bool) {
    && (ok <==> |s.buffer| + |Join4(nals)| <= 8 * 1024 * 1024 && |rest| < 2)
    && (ok ==> s'.buffer == s.buffer + Join4(nals) && s'.timestamp == s.timestamp && s'.inFu == s.inFu)
    && (!ok ==> s'.buffer == [] && s'.timestamp == None && !s'.inFu && !s'.keyframe)
    && s'.sps == Latest(s.sps, Looked(|s.buffer|, nals), 7)
    && s'.pps == Latest(s.pps, Looked(|s.buffer|, nals), 8)
  }

  lemma {:induction false} AppendedCons(s: State, nal: seq<byte>, more: seq<seq<byte>>, rest: seq<byte>, s': State, ok: bool)
    requires nal != [] && |s.buffer| <= 8 * 1024 * 1024
    requires var (s1, ok1) := PushUnit(s, nal); if ok1 then Appended(s1, more, rest, s', ok) else s' == s1 && !ok
    ensures Appended(s, [nal] + more, rest, s', ok)
  {
    var (s1, ok1) := PushUnit(s, nal);
    var all := [nal] + more;
    assert all[1..] == more;
    assert Join4(all) == START_CODE + nal + Join4(more);
    if ok1 {
      assert s1.buffer == s.buffer + START_CODE + nal;
      Assoc(s.buffer, START_CODE, nal);
      Assoc(s.buffer, START_CODE + nal, Join4(more));
      LatestCons(s.sps, nal, Looked(|s1.buffer|, more), 7);
      LatestCons(s.pps, nal, Looked(|s1.buffer|, more), 8);
    } else {
      assert Looked(|s.buffer|, all) == [nal];
      LatestCons(s.sps, nal, [], 7);
      LatestCons(s.pps, nal, [], 8);
      assert [nal] + [] == [nal];
    }
  }

  lemma {:induction false} UnitsBehind(nal: seq<byte>, more: seq<seq<byte>>, rest: seq<byte>)
    requires 0 < |nal| < 65536 && Packable(more)
    ensures Packable([nal] + more)
    ensures Units([nal] + more) + rest == UnitBytes(nal) + (Units(more) + rest)
  {
    UnitsCons(nal, more);
    Assoc(UnitBytes(nal), Units(more), rest);
  }

  lemma {:induction false} UnitsAppended(s: State, before: seq<byte>, nals: seq<seq<byte>>, rest: seq<byte>)
    requires Packable(nals) && Rest(rest) && |s.buffer| <= 8 * 1024 * 1024
    ensures var (s', ok) := PushStap(s, before + (Units(nals) + rest), |before|); Appended(s, nals, rest, s', ok)
    decreases |nals|, 0
  {
    if nals == [] {
      assert Units(nals) + rest == rest;
      assert s.buffer + [] == s.buffer;
      RestAt(s, before, rest);
    } else {
      MoreUnitsAppended(s, before, nals[0], nals[1..], rest);
      assert nals == [nals[0]] + nals[1..];
    }
  }

  /** Reading the first of several units. */
  lemma {:induction false} FirstUnit(s: State, before: seq<byte>, nal: seq<byte>, more: seq<seq<byte>>, rest: seq<byte>)
    requires 0 < |nal| < 65536 && Packable(more)
    ensures Packable([nal] + more)
    ensures var (s1, ok) := PushUnit(s, nal);
            var consumed := before + UnitBytes(nal);
            PushStap(s, before + (Units([nal] + more) + rest), |before|)
            == if ok then PushStap(s1, consumed + (Units(more) + rest), |consumed|) else (s1, false)
  {
    UnitsBehind(nal, more, rest);
    StapUnitAt(s, before, nal, Units(more) + rest);
  }

  lemma {:induction false} MoreUnitsAppended(s: State, before: seq<byte>, nal: seq<byte>, more: seq<seq<byte>>, rest: seq<byte>)
    requires 0 < |nal| < 65536 && Packable(more) && Rest(rest) && |s.buffer| <= 8 * 1024 * 1024
    ensures Packable([nal] + more)
    ensures var (s', ok) := PushStap(s, before + (Units([nal] + more) + rest), |before|); Appended(s, [nal] + more, rest, s', ok)
    decreases |more|, 1
  {
    FirstUnit(s, before, nal, more, rest);
    var (s1, ok1) := PushUnit(s, nal);
    if ok1 {
      UnitsAppended(s1, before + UnitBytes(nal), more, rest);
    }
    var (s', ok) := PushStap(s, before + (Units([nal] + more) + rest), |before|);
    AppendedCons(s, nal, more, rest, s', ok);
  }

  // ---------------------------------------------------------------- aggregation packets

  /** An aggregation packet appends exactly the four-byte join of its units, if it fits and no bad unit ends
      it; otherwise the partial frame is gone. */
  lemma {:induction false} AggregationAppends(s: State, header: byte, nals: seq<seq<byte>>, rest: seq<byte>)
    requires NalType(header) == 24 && Packable(nals) && Rest(rest) && |s.buffer| <= 8 * 1024 * 1024
    ensures var (s', ok) := PushPayload(s, Stap(header, nals) + rest); Appended(s, nals, rest, s', ok)
  {
    Assoc([header], Units(nals), rest);
    UnitsAppended(s, [header], nals, rest);
  }

  /** The last packet of a frame that holds nothing else: its units come out as their join. */
  lemma {:induction false} AggregationEmits(s: State, timestamp: u32, header: byte, nals: seq<seq<byte>>)
    requires Valid(s) && (s.buffer == [] || s.timestamp != Some(timestamp))
    requires NalType(header) == 24 && Packable(nals) && nals != []
    ensures Push(s, timestamp, true, Stap(header, nals)).1 ==
            if |Join4(nals)| <= 8 * 1024 * 1024 then Some(Frame(Join4(nals), HasNalType(Join4(nals), 5))) else None
  {
    var payload := Stap(header, nals);
    var s1 := PrepareTimestamp(s, timestamp);
    assert payload + [] == payload && [] + Join4(nals) == Join4(nals);
    AggregationAppends(s1, header, nals, []);
    PushKeepsValid(s, timestamp, true, payload);
  }

  /** A bad unit anywhere in the packet drops the partial frame, and nothing is emitted. */
  lemma {:induction false} BadUnitResets(s: State, timestamp: u32, marker: bool, header: byte, nals: seq<seq<byte>>, rest: seq<byte>)
    requires Valid(s) && NalType(header) == 24 && Packable(nals) && BadUnit(rest)
    ensures var (s', out) := Push(s, timestamp, marker, Stap(header, nals) + rest); out == None && s'.buffer == [] && s'.timestamp == None
  {
    AggregationAppends(PrepareTimestamp(s, timestamp), header, nals, rest);
  }
}
