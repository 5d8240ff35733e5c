/** Real-number helpers shared by the engine: pi, absolute value, min and max,
    powers, the one-pole approach step used for every eased quantity, and the
    host's elementary functions, which the model leaves uninterpreted. */
module Numeric {

  /** `Math.PI`, written as the runtime's double literal. */
  const PI: real := 3.141592653589793

  function Abs(x: real): (r: real)
    ensures r >= 0.0
    ensures r == x || r == -x
  {
    if x < 0.0 then -x else x
  }

  function Min(a: real, b: real): (r: real)
    ensures r <= a && r <= b
    ensures r == a || r == b
  {
    if a <= b then a else b
  }

  function Max(a: real, b: real): (r: real)
    ensures r >= a && r >= b
    ensures r == a || r == b
  {
    if a >= b then a else b
  }

  function Pow(b: real, n: nat): real
  {
    if n == 0 then 1.0 else b * Pow(b, n - 1)
  }

  lemma {:induction false} PowAdd(b: real, m: nat, n: nat)
    ensures Pow(b, m + n) == Pow(b, m) * Pow(b, n)
  {
    if m > 0 {
      PowAdd(b, m - 1, n);
      calc {
        Pow(b, m + n);
        b * Pow(b, m - 1 + n);
        b * (Pow(b, m - 1) * Pow(b, n));
        (b * Pow(b, m - 1)) * Pow(b, n);
      }
    }
  }

  /** A power of a factor strictly between 0 and 1 stays in (0, 1]. */
  lemma {:induction false} PowInUnit(b: real, n: nat)
    requires 0.0 < b < 1.0
    ensures 0.0 < Pow(b, n) <= 1.0
  {
    if n > 0 {
      PowInUnit(b, n - 1);
      var p := Pow(b, n - 1);
      assert b * p <= p;
      assert 0.0 < b * p;
    }
  }

  /** The host's `Math.sin`, `Math.cos`, `Math.atan2` (arguments y, x) and
      `Math.sqrt`. Nothing about their values is assumed. */
  datatype MathFns = MathFns(
    sin: real -> real,
    cos: real -> real,
    atan2: (real, real) -> real,
    sqrt: real -> real)

  /** One easing step: move the fraction `rate` of the way from `current`
      toward `target`. The remaining gap shrinks by exactly `1 - rate` and the
      result never overshoots the target. */
  function Approach(current: real, target: real, rate: real): (r: real)
    requires 0.0 <= rate <= 1.0
    ensures target - r == (1.0 - rate) * (target - current)
    ensures current <= target ==> current <= r <= target
    ensures target <= current ==> target <= r <= current
  {
    var gap := target - current;
    var step := gap * rate;
    StepWithin(gap, rate);
    assert target - (current + step) == gap - step;
    current + step
  }

  /** Scaling by a factor in [0, 1] keeps a value between 0 and itself. */
  lemma StepWithin(a: real, t: real)
    requires 0.0 <= t <= 1.0
    ensures a >= 0.0 ==> 0.0 <= a * t <= a
    ensures a <= 0.0 ==> a <= a * t <= 0.0
    ensures a - a * t == (1.0 - t) * a
  {
    if a >= 0.0 {
      assert a * t <= a * 1.0;
    } else {
      assert a * t >= a * 1.0;
    }
  }

  lemma GapScales(q: real, p: real, g: real, before: real, after: real)
    requires before == p * g && after == q * before
    ensures after == (q * p) * g
  {
  }

  /** `n` easing steps toward a fixed target. */
  function ApproachFrames(current: real, target: real, rate: real, n: nat): real
    requires 0.0 <= rate <= 1.0
  {
    if n == 0 then current else Approach(ApproachFrames(current, target, rate, n - 1), target, rate)
  }

  /** After `n` steps the gap to a fixed target is `(1 - rate)^n` of the first gap. */
  lemma {:induction false} ApproachFramesGap(current: real, target: real, rate: real, n: nat)
    requires 0.0 <= rate <= 1.0
    ensures target - ApproachFrames(current, target, rate, n) == Pow(1.0 - rate, n) * (target - current)
  {
    if n > 0 {
      ApproachFramesGap(current, target, rate, n - 1);
      var prev := ApproachFrames(current, target, rate, n - 1);
      var now := ApproachFrames(current, target, rate, n);
      var q, p, g := 1.0 - rate, Pow(1.0 - rate, n - 1), target - current;
      assert target - prev == p * g;
      assert now == Approach(prev, target, rate);
      assert target - now == q * (target - prev);
      assert Pow(1.0 - rate, n) == q * p;
      GapScales(q, p, g, target - prev, target - now);
    }
  }

  /** Starting above the target with a rate strictly between 0 and 1, every
      step strictly decreases the value and none reaches or passes the target. */
  lemma ApproachFramesDescend(current: real, target: real, rate: real, n: nat)
    requires 0.0 < rate < 1.0
    requires target < current
    ensures target < ApproachFrames(current, target, rate, n + 1) < ApproachFrames(current, target, rate, n)
  {
    ApproachFramesGap(current, target, rate, n);
    PowInUnit(1.0 - rate, n);
    var p, g := Pow(1.0 - rate, n), target - current;
    var gap := p * g;
    assert gap < 0.0 by {
      assert p > 0.0 && g < 0.0;
    }
    var next := ApproachFrames(current, target, rate, n + 1);
    assert target - next == (1.0 - rate) * gap;
    assert (1.0 - rate) * gap > gap by {
      assert rate * gap < 0.0;
    }
  }
}
