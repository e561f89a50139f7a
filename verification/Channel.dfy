/** A sender's packets under one wrapping 16-bit sequence, and a receiver that gets any list of them:
    some lost, some repeated, in any order. */
module Channel {
  import opened Bytes

  /** How many packets each sent frame has and under which RTP timestamp it goes. */
  datatype Frames = Frames(timestamps: seq<u32>, counts: seq<nat>)

  /** The receiver gets packet `index` of frame number `unit`. */
  datatype Delivery = Delivery(unit: nat, index: nat)

  ghost predicate Deliverable(f: Frames, d: Delivery) {
    |f.timestamps| == |f.counts| && d.unit < |f.counts| && d.index < f.counts[d.unit]
  }

  ghost predicate AllDeliverable(f: Frames, ds: seq<Delivery>) {
    forall i | 0 <= i < |ds| :: Deliverable(f, ds[i])
  }

  /** How many packets were sent before frame `k`. */
  function PacketsBefore(counts: seq<nat>, k: nat): nat
    requires k <= |counts|
  {
    if k == 0 then 0 else PacketsBefore(counts, k - 1) + counts[k - 1]
  }

  function Position(f: Frames, d: Delivery): nat
    requires d.unit < |f.counts|
  {
    PacketsBefore(f.counts, d.unit) + d.index
  }

  /** The packet's RTP sequence number when the sender's counter started at `base`. */
  function SequenceOf(f: Frames, base: nat, d: Delivery): u16
    requires d.unit < |f.counts|
  {
    (base + Position(f, d)) % 0x1_0000
  }

  /** A packet that looks like the successor of the one before it, but is not, does no harm when it
      belongs to another RTP timestamp or when the one before it closed its frame. */
  ghost predicate NoAliasing(f: Frames, d1: Delivery, d2: Delivery)
    requires Deliverable(f, d1) && Deliverable(f, d2)
  {
    (Position(f, d2) - Position(f, d1) - 1) % 0x1_0000 == 0 ==>
      || d2 == Delivery(d1.unit, d1.index + 1)
      || f.timestamps[d1.unit] != f.timestamps[d2.unit]
      || d1.index + 1 == f.counts[d1.unit]
  }

  ghost predicate Unaliased(f: Frames, ds: seq<Delivery>)
    requires AllDeliverable(f, ds)
  {
    forall i | 0 <= i < |ds| - 1 :: NoAliasing(f, ds[i], ds[i + 1])
  }

  lemma {:induction false} SequenceMatch(base: nat, p1: nat, p2: nat)
    requires ((base + p1) % 0x1_0000 + 1) % 0x1_0000 == (base + p2) % 0x1_0000
    ensures (p2 - p1 - 1) % 0x1_0000 == 0
  {
    var a, b := base + p1, base + p2;
    assert a == 0x1_0000 * (a / 0x1_0000) + a % 0x1_0000;
    assert b == 0x1_0000 * (b / 0x1_0000) + b % 0x1_0000;
    if a % 0x1_0000 == 0xFFFF {
      assert b - a - 1 == 0x1_0000 * (b / 0x1_0000 - a / 0x1_0000 - 1);
    } else {
      assert b - a - 1 == 0x1_0000 * (b / 0x1_0000 - a / 0x1_0000);
    }
  }

  /** Frames that a 16-bit sequence can number, each under a timestamp of its own. */
  ghost predicate Distinguishable(f: Frames) {
    && |f.timestamps| == |f.counts|
    && (forall k | 0 <= k < |f.counts| :: f.counts[k] <= 0x1_0000)
    && (forall j, k | 0 <= j < |f.counts| && 0 <= k < |f.counts| && j != k :: f.timestamps[j] != f.timestamps[k])
  }

  /** Then no two deliveries alias, however far apart they were sent. */
  lemma {:induction false} DistinguishableUnaliased(f: Frames, ds: seq<Delivery>)
    requires Distinguishable(f) && AllDeliverable(f, ds)
    ensures Unaliased(f, ds)
  {
    forall i | 0 <= i < |ds| - 1 ensures NoAliasing(f, ds[i], ds[i + 1]) {
      DistinguishableNoAliasing(f, ds[i], ds[i + 1]);
    }
  }

  lemma {:induction false} DistinguishableNoAliasing(f: Frames, d1: Delivery, d2: Delivery)
    requires Distinguishable(f) && Deliverable(f, d1) && Deliverable(f, d2)
    ensures NoAliasing(f, d1, d2)
  {
    if d1.unit == d2.unit {
      var gap := d2.index - d1.index - 1;
      assert Position(f, d2) - Position(f, d1) - 1 == gap;
      assert -0x1_0000 <= gap < 0x1_0000;
      assert gap % 0x1_0000 == 0 ==> gap == 0 || gap == -0x1_0000;
    }
  }
}
