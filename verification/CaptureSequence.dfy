/** Audio sequence recovery of `src/capture_supervisor.rs`: 16-bit RTP sequence numbers decide which packets
    are dropped and how many frames are concealed (PLC) or recovered (FEC) before the current one.

    The decoder is outside: an `Outcome` says what it answers for one packet. */
module CaptureSequence {
  import opened Bytes

  const MAX_RECOVERABLE_GAP := 5

  datatype Class = First | Sequential | ForwardLoss(lostCount: nat) | ForwardLarge | Duplicate | Stale

  /** A 16-bit difference read as a signed number. */
  function AsI16(x: u16): int {
    if x < 0x8000 then x else x - 0x1_0000
  }

  function ClassifyDistance(distance: int): Class {
    if 0 < distance <= MAX_RECOVERABLE_GAP then ForwardLoss(distance)
    else if distance > MAX_RECOVERABLE_GAP then ForwardLarge
    else Stale
  }

  function Classify(prev: Option<u16>, incoming: u16): Class {
    if prev.None? then First
    else
      var expected := (prev.value + 1) % 0x1_0000;
      if incoming == expected then Sequential
      else if incoming == prev.value then Duplicate
      else ClassifyDistance(AsI16((incoming - expected) % 0x1_0000))
  }

  /** The same decision on numbers that never wrap. */
  function ClassifyUnwrapped(prev: Option<int>, incoming: int): Class {
    if prev.None? then First
    else if incoming == prev.value + 1 then Sequential
    else if incoming == prev.value then Duplicate
    else if incoming < prev.value then Stale
    else if incoming - prev.value - 1 <= 5 then ForwardLoss(incoming - prev.value - 1)
    else ForwardLarge
  }

  function Wrap(n: int): u16 {
    n % 0x1_0000
  }

  lemma {:induction false} WrapDifference(a: int, b: int)
    ensures (Wrap(a) - Wrap(b)) % 0x1_0000 == (a - b) % 0x1_0000
  {
    var q := a / 0x1_0000 - b / 0x1_0000;
    assert a - b == (Wrap(a) - Wrap(b)) + 0x1_0000 * q;
  }

  /** A small number is itself modulo 2^16, read as signed. */
  lemma {:induction false} SignedRemainder(d: int)
    requires -0x8000 <= d < 0x8000
    ensures AsI16(d % 0x1_0000) == d
    ensures (d + 1) % 0x1_0000 == 0 <==> d == -1
  {
  }

  lemma {:induction false} WrapEqual(a: int, b: int)
    ensures Wrap(a) == Wrap(b) <==> (a - b) % 0x1_0000 == 0
  {
    WrapDifference(a, b);
  }

  /** While a packet lies within half the number range of the expected one, the wrapped numbers decide as
      the true ones would. */
  lemma {:induction false} ClassificationUnwraps(prev: int, incoming: int)
    requires -0x8000 <= incoming - (prev + 1) < 0x8000
    ensures Classify(Some(Wrap(prev)), Wrap(incoming)) == ClassifyUnwrapped(Some(prev), incoming)
  {
    var d := incoming - (prev + 1);
    assert (Wrap(prev) + 1) % 0x1_0000 == Wrap(prev + 1) by { WrapDifference(prev, -1); }
    SignedRemainder(d);
    WrapDifference(incoming, prev + 1);
    WrapEqual(incoming, prev + 1);
    WrapEqual(incoming, prev);
  }

  // ---------------------------------------------------------------- one packet

  datatype Kind = Concealed | Recovered | Decoded

  /** A frame handed on, and the sequence number it stands for. */
  datatype Output = Output(kind: Kind, sequence: u16)

  /** What surrounds a packet: whether its user is subscribed, whether it parses as Opus, and which of the
      decoder calls give audio. */
  datatype Outcome = Outcome(subscribed: bool, parses: bool, conceals: nat -> bool, recovers: bool, decodes: bool)

  /** The concealment frames, oldest first. */
  function Concealments(prev: u16, count: nat, conceals: nat -> bool): seq<Output> {
    if count == 0 then []
    else Concealments(prev, count - 1, conceals)
         + if conceals(count - 1) then [Output(Concealed, Wrap(prev + count))] else []
  }

  function Recovery(prev: Option<u16>, incoming: u16, o: Outcome): seq<Output> {
    match Classify(prev, incoming)
    case ForwardLoss(lost) =>
      assert prev.Some? && lost >= 1;
      Concealments(prev.value, lost - 1, o.conceals)
      + if o.recovers then [Output(Recovered, Wrap(incoming - 1))] else []
    case _ => []
  }

  function Accepts(prev: Option<u16>, incoming: u16, o: Outcome): bool {
    && !Classify(prev, incoming).Duplicate? && !Classify(prev, incoming).Stale?
    && o.subscribed && o.parses && o.decodes
  }

  /** The frames that one packet hands on. */
  function Outputs(prev: Option<u16>, incoming: u16, o: Outcome): seq<Output> {
    if Accepts(prev, incoming, o) then Recovery(prev, incoming, o) + [Output(Decoded, incoming)] else []
  }

  function Tracker(prev: Option<u16>, incoming: u16, o: Outcome): Option<u16> {
    if Accepts(prev, incoming, o) then Some(incoming) else prev
  }

  class CaptureState {
    var lastRtpSeq: map<u32, u16>

    function Last(ssrc: u32): Option<u16>
      reads this
    {
      if ssrc in lastRtpSeq then Some(lastRtpSeq[ssrc]) else None
    }

    constructor ()
      ensures lastRtpSeq == map[]
    {
      lastRtpSeq := map[];
    }

    method OpusReceived(ssrc: u32, rtpSequence: u16, o: Outcome) returns (emitted: seq<Output>)
      modifies this
      ensures emitted == Outputs(old(Last(ssrc)), rtpSequence, o)
      ensures Last(ssrc) == Tracker(old(Last(ssrc)), rtpSequence, o)
      ensures forall other | other != ssrc :: Last(other) == old(Last(other))
    {
      var prev := Last(ssrc);
      var seqClass := Classify(prev, rtpSequence);
      if seqClass.Duplicate? || seqClass.Stale? {
        return [];
      }
      if !o.subscribed {
        return [];
      }
      var recoveryFrames: seq<Output> := [];
      if seqClass.ForwardLoss? {
        var plcCount := seqClass.lostCount - 1;
        var k := 0;
        while k < plcCount
          invariant 0 <= k <= plcCount
          invariant recoveryFrames == Concealments(prev.value, k, o.conceals)
        {
          if o.conceals(k) {
            recoveryFrames := recoveryFrames + [Output(Concealed, Wrap(prev.value + k + 1))];
          }
          k := k + 1;
        }
        if !o.parses {
          return [];
        }
        if o.recovers {
          recoveryFrames := recoveryFrames + [Output(Recovered, Wrap(rtpSequence - 1))];
        }
      }
      if !o.parses {
        return [];
      }
      if o.decodes {
        emitted := recoveryFrames + [Output(Decoded, rtpSequence)];
        lastRtpSeq := lastRtpSeq[ssrc := rtpSequence];
      } else {
        emitted := [];
      }
    }
  }

  // ---------------------------------------------------------------- a subscribed stretch

  /** Every decoder call succeeds. */
  ghost predicate AllGood(o: Outcome) {
    o.subscribed && o.parses && o.recovers && o.decodes && forall k :: o.conceals(k)
  }

  /** The numbers from `a` to `b`, both included, as they appear on the wire. */
  function Span(a: int, b: int): seq<u16>
    decreases b - a
  {
    if b < a then [] else Span(a, b - 1) + [Wrap(b)]
  }

  function SequencesOf(outs: seq<Output>): seq<u16> {
    seq(|outs|, i requires 0 <= i < |outs| => outs[i].sequence)
  }

  lemma {:induction false} ConcealmentSpan(prev: int, count: nat, conceals: nat -> bool)
    requires forall k :: conceals(k)
    ensures SequencesOf(Concealments(Wrap(prev), count, conceals)) == Span(prev + 1, prev + count)
  {
    if count > 0 {
      ConcealmentSpan(prev, count - 1, conceals);
      var outs := Concealments(Wrap(prev), count - 1, conceals);
      var last := Output(Concealed, Wrap(Wrap(prev) + count));
      WrapOfWrap(prev, count);
      assert SequencesOf(outs + [last]) == SequencesOf(outs) + [last.sequence];
    }
  }

  lemma {:induction false} WrapOfWrap(n: int, k: int)
    ensures Wrap(Wrap(n) + k) == Wrap(n + k)
  {
    assert n + k == (Wrap(n) + k) + 0x1_0000 * (n / 0x1_0000);
  }

  lemma {:induction false} SpanGrows(a: int, b: int, c: int)
    requires a <= b + 1 && b <= c
    ensures Span(a, b) + Span(b + 1, c) == Span(a, c)
    decreases c - b
  {
    if b == c {
      assert Span(b + 1, c) == [];
    } else {
      SpanGrows(a, b, c - 1);
      Assoc(Span(a, b), Span(b + 1, c - 1), [Wrap(c)]);
    }
  }

  lemma {:induction false} SpanEmpty(a: int, b: int)
    requires b < a
    ensures Span(a, b) == []
  {
  }

  lemma {:induction false} SequencesConcat(a: seq<Output>, b: seq<Output>)
    ensures SequencesOf(a + b) == SequencesOf(a) + SequencesOf(b)
  {
  }

  /** The packet numbered `n` is near the newest accepted number `t`: within half the range behind it, and at
      most five packets are missing before it. */
  predicate Near(t: int, n: int) {
    -0x8000 <= n - (t + 1) <= 5
  }

  lemma {:induction false} PacketSpan(t: int, n: int, o: Outcome)
    requires Near(t, n) && AllGood(o)
    ensures SequencesOf(Outputs(Some(Wrap(t)), Wrap(n), o)) == Span(t + 1, n)
    ensures Tracker(Some(Wrap(t)), Wrap(n), o) == Some(Wrap(Max(t, n)))
  {
    ClassificationUnwraps(t, n);
    var outs := Recovery(Some(Wrap(t)), Wrap(n), o);
    if n > t {
      if n > t + 1 {
        ConcealmentSpan(t, n - t - 2, o.conceals);
        WrapOfWrap(n, -1);
        var plc := Concealments(Wrap(t), n - t - 2, o.conceals);
        assert outs == plc + [Output(Recovered, Wrap(n - 1))];
        assert SequencesOf(outs) == SequencesOf(plc) + [Wrap(n - 1)];
        assert SequencesOf(outs) == Span(t + 1, n - 1);
      } else {
        assert outs == [] && Span(t + 1, n - 1) == [];
      }
      assert SequencesOf(outs + [Output(Decoded, Wrap(n))]) == SequencesOf(outs) + [Wrap(n)];
    }
  }

  function Kinds(outs: seq<Output>): seq<Kind> {
    seq(|outs|, i requires 0 <= i < |outs| => outs[i].kind)
  }

  lemma {:induction false} ConcealmentKinds(prev: u16, count: nat, conceals: nat -> bool)
    requires forall k :: conceals(k)
    ensures Kinds(Concealments(prev, count, conceals)) == seq(count, i => Concealed)
  {
    if count > 0 {
      ConcealmentKinds(prev, count - 1, conceals);
      var outs := Concealments(prev, count - 1, conceals);
      var last := Output(Concealed, Wrap(prev + count));
      assert Kinds(outs + [last]) == Kinds(outs) + [Concealed];
    }
  }

  lemma {:induction false} KindsConcat(a: seq<Output>, b: seq<Output>)
    ensures Kinds(a + b) == Kinds(a) + Kinds(b)
  {
  }

  /** Of the packets missing before one, up to five, all but the last are concealed and the last is recovered
      from the packet itself; more than five are given up. */
  lemma {:induction false} PacketKinds(t: int, n: int, o: Outcome)
    requires 0 <= n - (t + 1) < 0x8000 && AllGood(o)
    ensures var (lost, kinds) := (n - t - 1, Kinds(Outputs(Some(Wrap(t)), Wrap(n), o)));
            kinds == if 1 <= lost <= 5 then seq(lost - 1, i => Concealed) + [Recovered, Decoded] else [Decoded]
  {
    ClassificationUnwraps(t, n);
    var lost := n - t - 1;
    if 1 <= lost <= 5 {
      var plc := Concealments(Wrap(t), lost - 1, o.conceals);
      ConcealmentKinds(Wrap(t), lost - 1, o.conceals);
      assert Recovery(Some(Wrap(t)), Wrap(n), o) == plc + [Output(Recovered, Wrap(Wrap(n) - 1))];
      Assoc(plc, [Output(Recovered, Wrap(Wrap(n) - 1))], [Output(Decoded, Wrap(n))]);
      KindsConcat(plc, [Output(Recovered, Wrap(Wrap(n) - 1)), Output(Decoded, Wrap(n))]);
    }
  }

  datatype Arrival = Arrival(number: int, outcome: Outcome)

  /** The largest number so far. */
  function Newest(t: int, arrivals: seq<Arrival>): int
    decreases |arrivals|
  {
    if arrivals == [] then t else Newest(Max(t, arrivals[0].number), arrivals[1..])
  }

  ghost predicate AllNear(t: int, arrivals: seq<Arrival>)
    decreases |arrivals|
  {
    arrivals != [] ==>
      Near(t, arrivals[0].number) && AllGood(arrivals[0].outcome) && AllNear(Max(t, arrivals[0].number), arrivals[1..])
  }

  function RunArrivals(prev: Option<u16>, arrivals: seq<Arrival>): (Option<u16>, seq<Output>)
    decreases |arrivals|
  {
    if arrivals == [] then (prev, [])
    else
      var a := arrivals[0];
      var (last, outs) := RunArrivals(Tracker(prev, Wrap(a.number), a.outcome), arrivals[1..]);
      (last, Outputs(prev, Wrap(a.number), a.outcome) + outs)
  }

  lemma {:induction false} RunSpan(t: int, arrivals: seq<Arrival>)
    requires AllNear(t, arrivals)
    ensures t <= Newest(t, arrivals)
    ensures var (last, outs) := RunArrivals(Some(Wrap(t)), arrivals);
            last == Some(Wrap(Newest(t, arrivals))) && SequencesOf(outs) == Span(t + 1, Newest(t, arrivals))
    decreases |arrivals|
  {
    if arrivals == [] {
      assert Span(t + 1, t) == [];
    } else {
      var a := arrivals[0];
      var t' := Max(t, a.number);
      PacketSpan(t, a.number, a.outcome);
      RunSpan(t', arrivals[1..]);
      var head := Outputs(Some(Wrap(t)), Wrap(a.number), a.outcome);
      var rest := RunArrivals(Some(Wrap(t')), arrivals[1..]).1;
      SequencesConcat(head, rest);
      if a.number <= t { SpanEmpty(t + 1, a.number); SpanEmpty(t + 1, t); }
      SpanGrows(t + 1, t', Newest(t, arrivals));
    }
  }

  /** Over a subscribed stretch in which no more than five packets in a row are missing, the frames handed on
      stand for every number from the first to the newest, each once and in order; late and repeated
      packets add nothing and never move the tracker back. */
  lemma {:induction false} GaplessTimeline(first: Arrival, arrivals: seq<Arrival>)
    requires AllGood(first.outcome) && AllNear(first.number, arrivals)
    ensures var newest := Newest(first.number, arrivals);
            var (last, outs) := RunArrivals(None, [first] + arrivals);
            && newest >= first.number
            && last == Some(Wrap(newest))
            && SequencesOf(outs) == Span(first.number, newest)
            && |outs| == newest - first.number + 1
  {
    var n := first.number;
    RunSpan(n, arrivals);
    assert ([first] + arrivals)[1..] == arrivals;
    var rest := RunArrivals(Some(Wrap(n)), arrivals).1;
    var head := [Output(Decoded, Wrap(n))];
    assert Outputs(None, Wrap(n), first.outcome) == head;
    assert SequencesOf(head + rest) == SequencesOf(head) + SequencesOf(rest);
    assert Span(n, n - 1) == [];
    assert Span(n, n) == SequencesOf(head);
    SpanGrows(n, n, Newest(n, arrivals));
    SpanLength(n, Newest(n, arrivals));
  }

  lemma {:induction false} SpanLength(a: int, b: int)
    requires a <= b + 1
    ensures |Span(a, b)| == b - a + 1
    decreases b - a
  {
    if a <= b { SpanLength(a, b - 1); }
  }

  // ---------------------------------------------------------------- any stretch

  /** The newest accepted number after a packet, whatever the decoder answers. */
  function TrackedNumber(t: int, n: int, o: Outcome): int {
    if n > t && o.subscribed && o.parses && o.decodes then n else t
  }

  /** Every packet is within half the number range of the one expected when it arrives. */
  ghost predicate AllWithinHalf(t: int, arrivals: seq<Arrival>)
    decreases |arrivals|
  {
    arrivals != [] ==>
      && -0x8000 <= arrivals[0].number - (t + 1) < 0x8000
      && AllWithinHalf(TrackedNumber(t, arrivals[0].number, arrivals[0].outcome), arrivals[1..])
  }

  /** The frames stand for strictly increasing numbers above `low`, none above `high`. */
  ghost predicate StandsFor(outs: seq<Output>, numbers: seq<int>, low: int, high: int) {
    && |outs| == |numbers|
    && (forall i | 0 <= i < |outs| :: outs[i].sequence == Wrap(numbers[i]) && low < numbers[i] <= high)
    && (forall i, j | 0 <= i < j < |numbers| :: numbers[i] < numbers[j])
  }

  lemma {:induction false} StandsForConcat(a: seq<Output>, m: seq<int>, b: seq<Output>, n: seq<int>, low: int, mid: int, high: int)
    requires low <= mid <= high && StandsFor(a, m, low, mid) && StandsFor(b, n, mid, high)
    ensures StandsFor(a + b, m + n, low, high)
  {
  }

  lemma {:induction false} ConcealmentsOrdered(prev: int, count: nat, conceals: nat -> bool) returns (numbers: seq<int>)
    ensures StandsFor(Concealments(Wrap(prev), count, conceals), numbers, prev, prev + count)
  {
    if count == 0 {
      numbers := [];
    } else {
      var before := ConcealmentsOrdered(prev, count - 1, conceals);
      var last := if conceals(count - 1) then [Output(Concealed, Wrap(Wrap(prev) + count))] else [];
      numbers := if conceals(count - 1) then [prev + count] else [];
      WrapOfWrap(prev, count);
      StandsForConcat(Concealments(Wrap(prev), count - 1, conceals), before, last, numbers, prev, prev + count - 1, prev + count);
      numbers := before + numbers;
    }
  }

  lemma {:induction false} PacketOrdered(t: int, n: int, o: Outcome) returns (numbers: seq<int>)
    requires -0x8000 <= n - (t + 1) < 0x8000
    ensures Tracker(Some(Wrap(t)), Wrap(n), o) == Some(Wrap(TrackedNumber(t, n, o)))
    ensures StandsFor(Outputs(Some(Wrap(t)), Wrap(n), o), numbers, t, TrackedNumber(t, n, o))
  {
    ClassificationUnwraps(t, n);
    if !Accepts(Some(Wrap(t)), Wrap(n), o) {
      numbers := [];
    } else {
      var recovery := Recovery(Some(Wrap(t)), Wrap(n), o);
      numbers := [];
      if t + 1 < n && n - t - 1 <= 5 {
        var concealed := Concealments(Wrap(t), n - t - 2, o.conceals);
        numbers := ConcealmentsOrdered(t, n - t - 2, o.conceals);
        var fec := if o.recovers then [Output(Recovered, Wrap(Wrap(n) - 1))] else [];
        var fecNumbers := if o.recovers then [n - 1] else [];
        WrapOfWrap(n, -1);
        StandsForConcat(concealed, numbers, fec, fecNumbers, t, n - 2, n - 1);
        numbers := numbers + fecNumbers;
        assert recovery == concealed + fec;
      }
      StandsForConcat(recovery, numbers, [Output(Decoded, Wrap(n))], [n], t, n - 1, n);
      numbers := numbers + [n];
    }
  }

  /** Whatever is lost, late, repeated or undecodable: the frames handed on stand for strictly increasing
      sequence numbers, so none is handed on twice or out of order, and the tracker never moves back. */
  lemma {:induction false} TimelineOrdered(t: int, arrivals: seq<Arrival>) returns (t': int, numbers: seq<int>)
    requires AllWithinHalf(t, arrivals)
    ensures t <= t'
    ensures var (last, outs) := RunArrivals(Some(Wrap(t)), arrivals);
            last == Some(Wrap(t')) && StandsFor(outs, numbers, t, t')
    decreases |arrivals|
  {
    if arrivals == [] {
      t', numbers := t, [];
    } else {
      var a := arrivals[0];
      var mid := TrackedNumber(t, a.number, a.outcome);
      var head := PacketOrdered(t, a.number, a.outcome);
      var rest;
      t', rest := TimelineOrdered(mid, arrivals[1..]);
      StandsForConcat(Outputs(Some(Wrap(t)), Wrap(a.number), a.outcome), head,
                      RunArrivals(Some(Wrap(mid)), arrivals[1..]).1, rest, t, mid, t');
      numbers := head + rest;
    }
  }
}
