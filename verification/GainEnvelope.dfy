/** The music gain envelope of `src/audio_pipeline.rs` in closed form: a fade is a straight line from where it
    starts to its target, 48 steps a millisecond. */
module GainEnvelope {
  import opened Bytes
  import opened AudioSend

  function StepOf(from: real, target: real, ms: u32): real
    requires ms > 0
  {
    (target - from) / (48.0 * (ms as real))
  }

  /** The gain after so many of the fade's 48 samples a millisecond. */
  function LevelAt(from: real, target: real, ms: u32, samples: nat): real {
    if samples >= 48 * ms then target
    else from + (samples as real) * StepOf(from, target, ms)
  }

  lemma ProductSign(x: real, y: real)
    requires x >= 0.0
    ensures y > 0.0 ==> x * y >= 0.0 && (x > 0.0 ==> x * y > 0.0)
    ensures y < 0.0 ==> x * y <= 0.0 && (x > 0.0 ==> x * y < 0.0)
    ensures y == 0.0 ==> x * y == 0.0
  {
  }

  /** What a fade with step `d` has still to go after `k` of its `n` samples. */
  lemma {:induction false} StillToGo(from: real, target: real, n: real, k: real, d: real)
    requires n * d == target - from && k <= n
    ensures target - (from + k * d) == (n - k) * d
    ensures d > 0.0 ==> from + k * d <= target && (k < n ==> from + k * d < target)
    ensures d < 0.0 ==> from + k * d >= target && (k < n ==> from + k * d > target)
    ensures d == 0.0 ==> from + k * d == target
  {
    assert (n - k) * d == n * d - k * d;
    ProductSign(n - k, d);
  }

  /** The line takes one step after another and meets the target with the last. */
  lemma {:induction false} LevelNext(from: real, target: real, ms: u32, samples: nat)
    requires 0 < samples <= 48 * ms
    ensures var (now, next, d) := (LevelAt(from, target, ms, samples - 1), LevelAt(from, target, ms, samples), StepOf(from, target, ms));
            && next == now + d
            && (d > 0.0 ==> now < target && next <= target)
            && (d < 0.0 ==> now > target && next >= target)
  {
    var n, k, d := 48.0 * (ms as real), (samples - 1) as real, StepOf(from, target, ms);
    assert n * d == target - from;
    assert samples as real == k + 1.0 && (k + 1.0) * d == k * d + d;
    StillToGo(from, target, n, k, d);
    StillToGo(from, target, n, k + 1.0, d);
  }

  lemma {:induction false} AdvanceOnLine(g: Gain, next: real)
    requires next == g.current + g.step
    requires g.step > 0.0 ==> g.current < g.target && next <= g.target
    requires g.step < 0.0 ==> g.current > g.target && next >= g.target
    ensures AdvanceGain(g) == g.(current := next)
  {
  }

  lemma {:induction false} FadeLine(from: real, target: real, ms: u32, samples: nat)
    requires ms == 0 ==> from == target
    ensures GainAfter(NewGain(from, target, ms), samples)
            == Gain(LevelAt(from, target, ms, samples), target, if ms == 0 then 0.0 else StepOf(from, target, ms))
  {
    if samples > 0 {
      FadeLine(from, target, ms, samples - 1);
      if samples <= 48 * ms {
        LevelNext(from, target, ms, samples);
        AdvanceOnLine(GainAfter(NewGain(from, target, ms), samples - 1), LevelAt(from, target, ms, samples));
      }
    }
  }

  lemma {:induction false} GainAfterAdd(g: Gain, a: nat, b: nat)
    ensures GainAfter(GainAfter(g, a), b) == GainAfter(g, a + b)
  {
    if b > 0 {
      GainAfterAdd(g, a, b - 1);
    }
  }

  /** A fade stays between its ends. */
  lemma {:induction false} LevelBetween(from: real, target: real, ms: u32, samples: nat)
    ensures var level := LevelAt(from, target, ms, samples);
            (from <= level <= target) || (target <= level <= from)
  {
    if samples < 48 * ms {
      var n, k, d := 48.0 * (ms as real), samples as real, StepOf(from, target, ms);
      assert n * d == target - from;
      StillToGo(from, target, n, k, d);
      ProductSign(k, d);
      ProductSign(n, d);
    }
  }

  /** At its target, an envelope rests. */
  lemma {:induction false} AtRest(g: Gain, samples: nat)
    requires g.current == g.target
    ensures GainAfter(g, samples) == g
  {
    if samples > 0 { AtRest(g, samples - 1); }
  }
}
