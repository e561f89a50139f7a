/** The incremental access unit splitter of `src/stream_publish.rs`: pipe reads of any size are cut into
    access units at access unit delimiters (AUD, NAL type 9). */
module AccessUnits {
  import opened Bytes
  import opened AnnexB

  const AUD_TYPE := 9

  // ---------------------------------------------------------------- finding a delimiter

  function FirstAud(f: seq<byte>, from: nat): (r: Option<nat>)
    ensures r.Some? ==> from <= r.value && r.value + 3 < |f|
    decreases |f| - from
  {
    match FirstCode(f, from)
    case None => None
    case Some(code) =>
      var nalStart := code.index + code.len;
      if nalStart < |f| && NalType(f[nalStart]) == AUD_TYPE then Some(code.index) else FirstAud(f, nalStart)
  }

  method FindNextAudStart(data: seq<byte>, from: nat) returns (r: Option<nat>)
    ensures r == FirstAud(data, from)
  {
    var searchFrom := from;
    var next := FindNextStartCode(data, searchFrom);
    while next.Some?
      invariant next == FirstCode(data, searchFrom)
      invariant FirstAud(data, searchFrom) == FirstAud(data, from)
      decreases |data| - searchFrom
    {
      var nalStart := next.value.index + next.value.len;
      if nalStart < |data| && NalType(data[nalStart]) == AUD_TYPE {
        return Some(next.value.index);
      }
      searchFrom := nalStart;
      next := FindNextStartCode(data, searchFrom);
    }
    return None;
  }

  // ---------------------------------------------------------------- specification

  datatype Drained = Drained(units: seq<seq<byte>>, left: seq<byte>)

  /** Cutting a buffer that begins with a delimiter. */
  function CutUnits(b: seq<byte>): Drained
    decreases |b|
  {
    match FirstAud(b, 4)
    case None => Drained([], b)
    case Some(n) =>
      var rest := CutUnits(b[n..]);
      Drained([b[..n]] + rest.units, rest.left)
  }

  lemma {:induction false} CutOne(b: seq<byte>)
    requires FirstAud(b, 4).Some?
    ensures var n := FirstAud(b, 4).value;
            CutUnits(b) == Drained([b[..n]] + CutUnits(b[n..]).units, CutUnits(b[n..]).left)
  {
  }

  /** What a drain takes out of a buffer and what it leaves; without a delimiter nothing moves. */
  function Drain(b: seq<byte>): Drained {
    match FirstAud(b, 0)
    case None => Drained([], b)
    case Some(a) => CutUnits(b[a..])
  }

  /** A flushing drain also gives out what is left behind the last delimiter. */
  function Flush(b: seq<byte>): seq<seq<byte>> {
    if FirstAud(b, 0).None? then [] else Drain(b).units + [Drain(b).left]
  }

  class UnitBuffer {
    var buffer: seq<byte>

    constructor ()
      ensures buffer == []
    {
      buffer := [];
    }

    /** Takes every unit that a later delimiter closes. */
    method CutLoop() returns (out: seq<seq<byte>>)
      modifies this
      ensures Drained(out, buffer) == CutUnits(old(buffer))
    {
      out := [];
      var nextAud := FindNextAudStart(buffer, 4);
      while nextAud.Some?
        invariant nextAud == FirstAud(buffer, 4)
        invariant CutUnits(old(buffer)) == Drained(out + CutUnits(buffer).units, CutUnits(buffer).left)
        decreases |buffer|
      {
        if nextAud.value == 0 {
          assert false;
          break;
        }
        CutOne(buffer);
        Assoc(out, [buffer[..nextAud.value]], CutUnits(buffer[nextAud.value..]).units);
        var accessUnit := buffer[..nextAud.value];
        buffer := buffer[nextAud.value..];
        if accessUnit != [] {
          out := out + [accessUnit];
        }
        nextAud := FindNextAudStart(buffer, 4);
      }
    }

    method DrainUnits(flushTail: bool) returns (out: seq<seq<byte>>)
      modifies this
      ensures !flushTail ==> Drained(out, buffer) == Drain(old(buffer))
      ensures flushTail ==> out == Flush(old(buffer))
      ensures flushTail ==> buffer == if FirstAud(old(buffer), 0).None? then old(buffer) else []
    {
      var firstAud := FindNextAudStart(buffer, 0);
      if firstAud.None? {
        return [];
      }
      FromAud(buffer, 0);
      if firstAud.value > 0 {
        buffer := buffer[firstAud.value..];
      }
      assert buffer == old(buffer)[firstAud.value..];
      CutLeft(buffer);
      out := CutLoop();
      if flushTail && buffer != [] {
        out := out + [buffer];
        buffer := [];
      }
    }

    /** The reader loop: extend, drain, and flush when the pipe ends. */
    method ReadAll(chunks: seq<seq<byte>>) returns (frames: seq<seq<byte>>)
      requires buffer == []
      modifies this
      ensures frames == Flush(Concat(chunks))
    {
      frames := [];
      ghost var seen: seq<byte> := [];
      var k := 0;
      while k < |chunks|
        invariant k <= |chunks|
        invariant seen + Concat(chunks[k..]) == Concat(chunks)
        invariant Drained(frames, buffer) == Drain(seen)
      {
        DrainExtend(seen, chunks[k]);
        buffer := buffer + chunks[k];
        var units := DrainUnits(false);
        frames := frames + units;
        assert chunks[k..][1..] == chunks[k + 1..];
        Assoc(seen, chunks[k], Concat(chunks[k + 1..]));
        seen := seen + chunks[k];
        k := k + 1;
      }
      assert seen == Concat(chunks);
      FlushAfterDrain(seen);
      var tail := DrainUnits(true);
      frames := frames + tail;
    }
  }

  function Concat(parts: seq<seq<byte>>): seq<byte> {
    if parts == [] then [] else parts[0] + Concat(parts[1..])
  }

  // ---------------------------------------------------------------- more bytes do not move a found delimiter

  lemma {:induction false} FirstCodeStable(b: seq<byte>, x: seq<byte>, from: nat)
    requires FirstCode(b, from).Some?
    ensures FirstCode(b + x, from) == FirstCode(b, from)
    decreases |b| - from
  {
    if !CodeAt(b, from) {
      FirstCodeStable(b, x, from + 1);
    }
  }

  lemma {:induction false} FirstAudStable(b: seq<byte>, x: seq<byte>, from: nat)
    requires FirstAud(b, from).Some?
    ensures FirstAud(b + x, from) == FirstAud(b, from)
    decreases |b| - from
  {
    FirstCodeStable(b, x, from);
    var code := FirstCode(b, from).value;
    var nalStart := code.index + code.len;
    if nalStart < |b| && NalType(b[nalStart]) != AUD_TYPE {
      FirstAudStable(b, x, nalStart);
    }
  }

  /** The bytes from a delimiter on begin with that delimiter. */
  lemma {:induction false} FromAud(b: seq<byte>, from: nat)
    requires FirstAud(b, from).Some?
    ensures FirstAud(b[FirstAud(b, from).value..], 0) == Some(0)
    decreases |b| - from
  {
    var code := FirstCode(b, from).value;
    var nalStart := code.index + code.len;
    if nalStart < |b| && NalType(b[nalStart]) == AUD_TYPE {
      FirstCodeIsEarliest(b, from);
      var g := b[code.index..];
      assert Code3(g, 0) <==> Code3(b, code.index);
      assert CodeAt(g, 0) && g[code.len] == b[nalStart];
      assert FirstCode(g, 0) == Some(StartCode(0, code.len));
    } else {
      FromAud(b, nalStart);
    }
  }

  predicate BeginsWithAud(b: seq<byte>) {
    FirstAud(b, 0) == Some(0)
  }

  lemma {:induction false} CutLeft(b: seq<byte>)
    requires BeginsWithAud(b)
    ensures BeginsWithAud(CutUnits(b).left)
    decreases |b|
  {
    if FirstAud(b, 4).Some? {
      FromAud(b, 4);
      CutLeft(b[FirstAud(b, 4).value..]);
    }
  }

  lemma {:induction false} CutExtend(b: seq<byte>, x: seq<byte>)
    ensures var d := CutUnits(b); var e := CutUnits(d.left + x);
            CutUnits(b + x) == Drained(d.units + e.units, e.left)
    decreases |b|
  {
    match FirstAud(b, 4)
    case None =>
      assert [] + CutUnits(b + x).units == CutUnits(b + x).units;
    case Some(n) =>
      FirstAudStable(b, x, 4);
      SliceOfConcat(b, x, n);
      CutExtend(b[n..], x);
      var d := CutUnits(b[n..]);
      var e := CutUnits(d.left + x);
      assert CutUnits(b + x).units == [b[..n]] + (d.units + e.units);
      Assoc([b[..n]], d.units, e.units);
  }

  /** Draining a longer stream is draining its beginning and then what that left, extended. */
  lemma {:induction false} DrainExtend(b: seq<byte>, x: seq<byte>)
    ensures var d := Drain(b); var e := Drain(d.left + x);
            Drain(b + x) == Drained(d.units + e.units, e.left)
  {
    match FirstAud(b, 0)
    case None =>
      assert [] + Drain(b + x).units == Drain(b + x).units;
    case Some(a) =>
      FirstAudStable(b, x, 0);
      assert (b + x)[a..] == b[a..] + x;
      CutExtend(b[a..], x);
      FromAud(b, 0);
      CutLeft(b[a..]);
      var left := Drain(b).left;
      FirstAudStable(left, x, 0);
      assert (left + x)[0..] == left + x;
  }

  lemma {:induction false} FlushAfterDrain(b: seq<byte>)
    ensures Drain(b).units + Flush(Drain(b).left) == Flush(b)
  {
    match FirstAud(b, 0)
    case None =>
    case Some(a) =>
      FromAud(b, 0);
      CutLeft(b[a..]);
      var left := Drain(b).left;
      assert left[0..] == left;
      CutDone(b[a..]);
  }

  /** Nothing more can be cut from what a cut left. */
  lemma {:induction false} CutDone(b: seq<byte>)
    ensures CutUnits(CutUnits(b).left) == Drained([], CutUnits(b).left)
    decreases |b|
  {
    if FirstAud(b, 4).Some? {
      CutDone(b[FirstAud(b, 4).value..]);
    }
  }

  /** The reader loop over chunks, as a function. */
  function ReadChunks(b: seq<byte>, chunks: seq<seq<byte>>): Drained
    decreases |chunks|
  {
    if chunks == [] then Drained([], b)
    else
      var d := Drain(b + chunks[0]);
      var e := ReadChunks(d.left, chunks[1..]);
      Drained(d.units + e.units, e.left)
  }

  /** However a stream is cut into reads, repeated drains and the final flush give the units that one
      flushing drain of the whole stream gives. */
  lemma {:induction false} ChunkIndependence(chunks1: seq<seq<byte>>, chunks2: seq<seq<byte>>)
    requires Concat(chunks1) == Concat(chunks2)
    ensures var r1, r2 := ReadChunks([], chunks1), ReadChunks([], chunks2);
            && r1 == r2
            && r1.units + Flush(r1.left) == Flush(Concat(chunks1))
  {
    var w := Concat(chunks1);
    ReadChunksIsDrain([], chunks1);
    ReadChunksIsDrain([], chunks2);
    assert [] + w == w;
    FlushAfterDrain(w);
  }

  lemma {:induction false} ReadChunksIsDrain(b: seq<byte>, chunks: seq<seq<byte>>)
    requires Drain(b) == Drained([], b)
    ensures ReadChunks(b, chunks) == Drain(b + Concat(chunks))
    decreases |chunks|
  {
    if chunks == [] {
      assert b + [] == b;
    } else {
      var x, rest := chunks[0], Concat(chunks[1..]);
      DrainExtend(b, x);
      DrainAgain(b + x);
      ReadChunksIsDrain(Drain(b + x).left, chunks[1..]);
      DrainExtend(b + x, rest);
      assert b + (x + rest) == (b + x) + rest;
    }
  }

  lemma {:induction false} DrainAgain(b: seq<byte>)
    ensures Drain(Drain(b).left) == Drained([], Drain(b).left)
  {
    match FirstAud(b, 0)
    case None =>
    case Some(a) =>
      FromAud(b, 0);
      CutLeft(b[a..]);
      CutDone(b[a..]);
      assert Drain(b).left[0..] == Drain(b).left;
  }

  // ---------------------------------------------------------------- what a unit is

  /** The byte at `p` is the header of a delimiter. */
  predicate AudHeader(f: seq<byte>, p: nat) {
    HeaderAt(f, p) && NalType(f[p]) == AUD_TYPE
  }

  /** One delimiter, at the very beginning. */
  ghost predicate IsUnit(u: seq<byte>) {
    && CodeAt(u, 0)
    && exists h: nat :: h == (if Code3(u, 0) then 3 else 4) && AudHeader(u, h) && forall p: nat :: AudHeader(u, p) ==> p == h
  }

  /** The first delimiter found has no delimiter header before it. */
  lemma {:induction false} FirstAudIsFirst(f: seq<byte>, from: nat)
    ensures var r := FirstAud(f, from);
            && (r.None? ==> forall p: nat | from + 3 <= p :: !AudHeader(f, p))
            && (r.Some? ==>
                  var h := r.value + if Code3(f, r.value) then 3 else 4;
                  CodeAt(f, r.value) && AudHeader(f, h) && forall p: nat | from + 3 <= p < h :: !AudHeader(f, p))
    decreases |f| - from
  {
    FirstCodeIsEarliest(f, from);
    assert forall p: nat :: AudHeader(f, p) ==> CodeAt(f, p - 3);
    match FirstCode(f, from)
    case None =>
    case Some(code) =>
      var nalStart := code.index + code.len;
      if nalStart < |f| {
        assert HeaderAt(f, nalStart);
      }
      assert forall p: nat | from + 3 <= p && AudHeader(f, p) :: p == nalStart || nalStart + 3 <= p;
      FirstAudIsFirst(f, nalStart);
  }

  lemma {:induction false} HeadersNearStart(f: seq<byte>, p: nat)
    requires CodeAt(f, 0) && p < 7 && HeaderAt(f, p)
    requires (if Code3(f, 0) then 3 else 4) < |f| && f[if Code3(f, 0) then 3 else 4] != 0
    ensures p == if Code3(f, 0) then 3 else 4
  {
    assert p in {3, 4, 5, 6};
  }

  lemma {:induction false} CutGivesUnit(b: seq<byte>, n: nat)
    requires BeginsWithAud(b)
    requires n == match FirstAud(b, 4) case None => |b| case Some(k) => k
    ensures IsUnit(b[..n])
  {
    var u := b[..n];
    FirstAudIsFirst(b, 0);
    FirstAudIsFirst(b, 4);
    var h := if Code3(b, 0) then 3 else 4;
    assert h < n by {
      if FirstAud(b, 4).Some? {
        assert CodeAt(b, n) && b[n] == 0;
        assert b[h] != 0;
      }
    }
    assert Code3(u, 0) <==> Code3(b, 0);
    assert AudHeader(u, h);
    forall p: nat | AudHeader(u, p) ensures p == h {
      assert AudHeader(b, p);
      if p < 7 { HeadersNearStart(b, p); }
    }
  }

  lemma {:induction false} CutKeepsAll(b: seq<byte>)
    ensures Concat(CutUnits(b).units) + CutUnits(b).left == b
    decreases |b|
  {
    match FirstAud(b, 4)
    case None =>
    case Some(n) =>
      CutKeepsAll(b[n..]);
      CutOne(b);
      var d := CutUnits(b[n..]);
      ConcatCons(b[..n], d.units);
      Assoc(b[..n], Concat(d.units), d.left);
      assert b[..n] + b[n..] == b;
  }

  lemma {:induction false} ConcatCons(x: seq<byte>, parts: seq<seq<byte>>)
    ensures Concat([x] + parts) == x + Concat(parts)
  {
    assert ([x] + parts)[1..] == parts;
  }

  lemma {:induction false} CutGivesUnits(b: seq<byte>)
    requires BeginsWithAud(b)
    ensures forall k | 0 <= k < |CutUnits(b).units| :: IsUnit(CutUnits(b).units[k])
    ensures IsUnit(CutUnits(b).left)
    decreases |b|
  {
    match FirstAud(b, 4)
    case None =>
      CutGivesUnit(b, |b|);
      assert b[..|b|] == b;
    case Some(n) =>
      CutGivesUnit(b, n);
      FromAud(b, 4);
      CutGivesUnits(b[n..]);
  }

  lemma {:induction false} ConcatSnoc(parts: seq<seq<byte>>, x: seq<byte>)
    ensures Concat(parts + [x]) == Concat(parts) + x
  {
    if parts == [] {
      assert [x][1..] == [];
    } else {
      assert (parts + [x])[1..] == parts[1..] + [x];
      ConcatSnoc(parts[1..], x);
    }
  }

  /** A flushed stream gives units that begin with their only delimiter and together are the stream from
      its first delimiter on; a stream without a delimiter gives none. */
  lemma {:induction false} FlushGivesUnits(w: seq<byte>)
    ensures FirstAud(w, 0).None? <==> forall p: nat :: !AudHeader(w, p)
    ensures FirstAud(w, 0).None? ==> Flush(w) == []
    ensures FirstAud(w, 0).Some? ==>
              && (forall p: nat | p < FirstAud(w, 0).value + 3 :: !AudHeader(w, p))
              && Concat(Flush(w)) == w[FirstAud(w, 0).value..]
              && forall k | 0 <= k < |Flush(w)| :: IsUnit(Flush(w)[k])
  {
    FirstAudIsFirst(w, 0);
    match FirstAud(w, 0)
    case None =>
    case Some(a) =>
      FromAud(w, 0);
      CutGivesUnits(w[a..]);
      CutKeepsAll(w[a..]);
      ConcatSnoc(Drain(w).units, Drain(w).left);
  }
}
