/** The gesture classifier and signal smoother of `processGestures`: the fist
    test over four fingers, the pinch-to-radius mapping, the roll-driven
    rotation force with its dead-zone, and the two smoothing rules for the
    orbit speed (blend toward the force while a hand is seen, decay and snap to
    zero while none is). */
module Gestures {
  import opened Numeric
  import opened VoidTypes

  /** Landmark indices of the detector's 21-point hand. */
  const LandmarkCount: nat := 21
  const Wrist: nat := 0
  const ThumbTip: nat := 4
  const IndexTip: nat := 8
  const MiddleMcp: nat := 9
  /** Tips of the index, middle, ring and little finger, and their PIP joints. */
  const FingerTips: seq<nat> := [8, 12, 16, 20]
  const FingerPips: seq<nat> := [6, 10, 14, 18]
  const FingerCount: nat := 4

  /** A finger is curled when its tip is nearer the wrist than 1.1 times its PIP joint (squared distances). */
  const CurlSlack: real := 1.1
  const FistThreshold: nat := 3

  /** Raw thumb-to-index distances in [0.02, 0.22] map linearly onto [0, 1]. */
  const PinchLow: real := 0.02
  const PinchSpan: real := 0.2
  /** The ring radius a pinch asks for lies in [1.5, 5.5]. */
  const MinRadius: real := 1.5
  const RadiusSpan: real := 4.0
  const MaxRadius: real := 5.5

  /** Rolls of at most 0.15 rad produce no rotation force. */
  const DeadZone: real := 0.15
  const BaseForce: real := 0.05
  const SensitivityGain: real := 4.0

  /** Orbit-speed smoothing: blend 0.9/0.1 with a hand, decay by 0.8 without. */
  const SpeedRetention: real := 0.9
  const ForceWeight: real := 0.1
  const Decay: real := 0.8
  const SnapThreshold: real := 0.0001

  /** A hand the classifier can read: the detector's full landmark set. */
  predicate IsHand(hand: seq<Point>)
  {
    |hand| >= LandmarkCount
  }

  /** Squared 2D distance, `dx^2 + dy^2`. */
  function SqDist(a: Point, b: Point): (d: real)
    ensures d >= 0.0
  {
    var dx, dy := a.x - b.x, a.y - b.y;
    assert dx * dx >= 0.0 && dy * dy >= 0.0;
    dx * dx + dy * dy
  }

  // ---------------------------------------------------------------- fist test

  /** The order of the two points does not matter. */
  lemma SqDistSymmetric(a: Point, b: Point)
    ensures SqDist(a, b) == SqDist(b, a)
  {
    assert (a.x - b.x) * (a.x - b.x) == (b.x - a.x) * (b.x - a.x);
    assert (a.y - b.y) * (a.y - b.y) == (b.y - a.y) * (b.y - a.y);
  }

  /** Finger `f` (0 = index .. 3 = little) is curled toward the wrist. The
      10% slack means a tip no farther from the wrist than its PIP joint
      counts as curled, and a tip at least 1.1 times as far (squared) does not. */
  predicate FingerCurled(hand: seq<Point>, f: nat)
    requires IsHand(hand) && f < FingerCount
    ensures var dTip, dPip := SqDist(hand[FingerTips[f]], hand[Wrist]), SqDist(hand[FingerPips[f]], hand[Wrist]);
            (dTip <= dPip && dPip > 0.0 ==> FingerCurled(hand, f)) &&
            (dTip >= CurlSlack * dPip ==> !FingerCurled(hand, f))
  {
    SqDist(hand[FingerTips[f]], hand[Wrist]) < SqDist(hand[FingerPips[f]], hand[Wrist]) * CurlSlack
  }

  /** The curl flags of the four fingers, in the order the source visits them. */
  function CurledFingers(hand: seq<Point>): (c: seq<bool>)
    requires IsHand(hand)
    ensures |c| == FingerCount
    ensures forall f :: 0 <= f < FingerCount ==> c[f] == FingerCurled(hand, f)
  {
    seq(FingerCount, f requires 0 <= f < FingerCount => FingerCurled(hand, f))
  }

  /** Number of true flags, counted from the front as the source's loop does. */
  function CountTrue(flags: seq<bool>): (n: nat)
    ensures n <= |flags|
  {
    if flags == [] then 0
    else CountTrue(flags[..|flags| - 1]) + (if flags[|flags| - 1] then 1 else 0)
  }

  /** The count equals the number of positions holding a true flag. */
  lemma {:induction false} CountTrueIsCardinality(flags: seq<bool>)
    ensures CountTrue(flags) == |set i | 0 <= i < |flags| && flags[i]|
  {
    if flags != [] {
      var n := |flags| - 1;
      var init := flags[..n];
      CountTrueIsCardinality(init);
      var before := set i | 0 <= i < n && init[i];
      var all := set i | 0 <= i < |flags| && flags[i];
      assert before == set i | 0 <= i < n && flags[i];
      if flags[n] {
        assert all == before + {n};
        assert n !in before;
      } else {
        assert all == before;
      }
    }
  }

  /** Setting one flag changes the count by exactly the difference at that position. */
  lemma {:induction false} CountTrueUpdate(flags: seq<bool>, k: nat, b: bool)
    requires k < |flags|
    ensures CountTrue(flags[k := b]) == CountTrue(flags) - (if flags[k] then 1 else 0) + (if b then 1 else 0)
  {
    var n := |flags| - 1;
    var updated := flags[k := b];
    if k == n {
      assert updated[..n] == flags[..n];
    } else {
      assert updated[..n] == flags[..n][k := b];
      CountTrueUpdate(flags[..n], k, b);
    }
  }

  /** A fist is at least three curled fingers out of the flags given. */
  predicate IsFistOf(curled: seq<bool>)
  {
    CountTrue(curled) >= FistThreshold
  }

  predicate HandIsFist(hand: seq<Point>)
    requires IsHand(hand)
  {
    IsFistOf(CurledFingers(hand))
  }

  /** The fist flag holds exactly when at least three of the four fingers are curled. */
  lemma FistIffThreeCurled(hand: seq<Point>)
    requires IsHand(hand)
    ensures HandIsFist(hand) <==> |set f | 0 <= f < FingerCount && FingerCurled(hand, f)| >= FistThreshold
  {
    var c := CurledFingers(hand);
    CountTrueIsCardinality(c);
    assert (set i | 0 <= i < |c| && c[i]) == set f | 0 <= f < FingerCount && FingerCurled(hand, f);
  }

  /** Curling one more finger makes a fist exactly when two were already curled or more. */
  lemma CurlingOneFinger(curled: seq<bool>, k: nat)
    requires k < |curled| && !curled[k]
    ensures IsFistOf(curled[k := true]) <==> CountTrue(curled) >= FistThreshold - 1
  {
    CountTrueUpdate(curled, k, true);
  }

  /** Extending one curled finger keeps a fist exactly when four or more were curled. */
  lemma ExtendingOneFinger(curled: seq<bool>, k: nat)
    requires k < |curled| && curled[k]
    ensures IsFistOf(curled[k := false]) <==> CountTrue(curled) >= FistThreshold + 1
  {
    CountTrueUpdate(curled, k, false);
  }

  /** More curled fingers never undo a fist. */
  lemma {:induction false} FistMonotone(fewer: seq<bool>, more: seq<bool>)
    requires |fewer| == |more|
    requires forall i :: 0 <= i < |fewer| && fewer[i] ==> more[i]
    ensures CountTrue(fewer) <= CountTrue(more)
    ensures IsFistOf(fewer) ==> IsFistOf(more)
  {
    if fewer != [] {
      var n := |fewer| - 1;
      FistMonotone(fewer[..n], more[..n]);
    }
  }

  /** The curled-finger count of lines 332-342: one pass over the four
      fingers, comparing tip and PIP distances to the wrist. */
  method CountCurled(hand: seq<Point>) returns (count: nat)
    requires IsHand(hand)
    ensures count == CountTrue(CurledFingers(hand))
    ensures count <= FingerCount
  {
    ghost var flags := CurledFingers(hand);
    var wrist := hand[Wrist];
    count := 0;
    for i := 0 to FingerCount
      invariant count == CountTrue(flags[..i])
    {
      var tip := hand[FingerTips[i]];
      var pip := hand[FingerPips[i]];
      var dTip := SqDist(tip, wrist);
      var dPip := SqDist(pip, wrist);
      if dTip < dPip * CurlSlack {
        count := count + 1;
      }
      assert flags[..i + 1][..i] == flags[..i];
    }
    assert flags[..FingerCount] == flags;
  }

  // ---------------------------------------------------------------- pinch

  /** Thumb-tip to index-tip distance, through the host's square root. It
      does not matter which tip is taken first, and wherever the host's root
      is a true non-negative square root the spread is the Euclidean distance. */
  function PinchSpread(hand: seq<Point>, m: MathFns): (d: real)
    requires IsHand(hand)
    ensures d == m.sqrt(SqDist(hand[IndexTip], hand[ThumbTip]))
    ensures var sq := SqDist(hand[ThumbTip], hand[IndexTip]);
            m.sqrt(sq) >= 0.0 && m.sqrt(sq) * m.sqrt(sq) == sq ==> d >= 0.0 && d * d == sq
  {
    SqDistSymmetric(hand[ThumbTip], hand[IndexTip]);
    m.sqrt(SqDist(hand[ThumbTip], hand[IndexTip]))
  }

  /** The raw distance remapped from [0.02, 0.22] onto [0, 1] and clamped.
      Inside the raw range the map is invertible; outside it saturates. */
  function NormalizePinch(dist: real): (n: real)
    ensures 0.0 <= n <= 1.0
    ensures PinchLow <= dist <= PinchLow + PinchSpan ==> dist == PinchLow + n * PinchSpan
    ensures dist <= PinchLow ==> n == 0.0
    ensures dist >= PinchLow + PinchSpan ==> n == 1.0
  {
    Min(Max((dist - PinchLow) / PinchSpan, 0.0), 1.0)
  }

  /** A wider pinch never asks for a smaller normalized value. */
  lemma NormalizePinchMonotone(d1: real, d2: real)
    requires d1 <= d2
    ensures NormalizePinch(d1) <= NormalizePinch(d2)
  {
    if PinchLow < d1 < PinchLow + PinchSpan && PinchLow < d2 < PinchLow + PinchSpan {
      assert d1 == PinchLow + NormalizePinch(d1) * PinchSpan;
      assert d2 == PinchLow + NormalizePinch(d2) * PinchSpan;
    }
  }

  /** The ring radius a normalized pinch asks for: 1.5 plus four times the
      pinch, so it lies in [1.5, 5.5] and the pinch can be read back from it. */
  function TargetRadiusFor(n: real): (r: real)
    requires 0.0 <= n <= 1.0
    ensures MinRadius <= r <= MaxRadius
    ensures n == (r - MinRadius) / RadiusSpan
  {
    MinRadius + n * RadiusSpan
  }

  // ---------------------------------------------------------------- rotation

  /** An angle wrapped through `atan2(sin a, cos a)`. */
  function WrapAngle(a: real, m: MathFns): real
  {
    m.atan2(m.sin(a), m.cos(a))
  }

  /** The hand's roll in radians: the wrist-to-middle-MCP angle measured
      from the downward vertical (-pi/2), then wrapped through
      `atan2(sin d, cos d)`. Wherever the host's `atan2` returns angles in
      (-pi, pi], the roll lies there too. */
  function HandRoll(hand: seq<Point>, m: MathFns): (r: real)
    requires IsHand(hand)
    ensures (forall y: real, x: real :: -PI < m.atan2(y, x) <= PI) ==> -PI < r <= PI
  {
    var mcp, wrist := hand[MiddleMcp], hand[Wrist];
    var angle := m.atan2(mcp.y - wrist.y, mcp.x - wrist.x);
    var vertical := -PI / 2.0;
    var diff := angle - vertical;
    var s, c := m.sin(diff), m.cos(diff);
    assert (forall y: real, x: real :: -PI < m.atan2(y, x) <= PI) ==> -PI < m.atan2(s, c) <= PI by {
      if forall y: real, x: real :: -PI < m.atan2(y, x) <= PI {
        assert -PI < m.atan2(s, c) <= PI;
      }
    }
    m.atan2(s, c)
  }

  /** The roll reads nothing but the middle MCP's offset from the wrist: two
      hands with the same offset have the same roll, wherever they are in the
      frame and whatever their other landmarks. */
  lemma HandRollReadsOffset(h1: seq<Point>, h2: seq<Point>, m: MathFns)
    requires IsHand(h1) && IsHand(h2)
    requires h1[MiddleMcp].x - h1[Wrist].x == h2[MiddleMcp].x - h2[Wrist].x
    requires h1[MiddleMcp].y - h1[Wrist].y == h2[MiddleMcp].y - h2[Wrist].y
    ensures HandRoll(h1, m) == HandRoll(h2, m)
  {
  }

  /** The roll is measured from the downward vertical: a hand whose MCP
      lies straight below the wrist (direction -pi/2) has no roll, wherever
      the host wraps a zero angle to zero. */
  lemma PointingDownHasNoRoll(hand: seq<Point>, m: MathFns)
    requires IsHand(hand)
    requires m.atan2(hand[MiddleMcp].y - hand[Wrist].y, hand[MiddleMcp].x - hand[Wrist].x) == -PI / 2.0
    requires m.atan2(m.sin(0.0), m.cos(0.0)) == 0.0
    ensures HandRoll(hand, m) == 0.0
  {
  }

  /** Gain applied to the roll outside the dead-zone. */
  function ForceGain(baseSpeed: real): real
  {
    BaseForce + baseSpeed * SensitivityGain
  }

  /** The rotation force of lines 367-372. It is zero during a fist or inside
      the dead-zone whatever the sensitivity; outside, its magnitude is the
      roll times the gain and, for a non-negative sensitivity, it pushes in
      the roll's direction, or against it when the rotation is inverted. */
  function RotationForce(isFist: bool, roll: real, invert: bool, baseSpeed: real): (f: real)
    ensures isFist || Abs(roll) <= DeadZone ==> f == 0.0
    ensures !isFist && Abs(roll) > DeadZone ==> Abs(f) == Abs(roll) * Abs(ForceGain(baseSpeed))
    ensures !isFist && Abs(roll) > DeadZone && baseSpeed >= 0.0 ==> (if invert then -roll else roll) * f > 0.0
  {
    if !isFist && Abs(roll) > DeadZone then
      var direction := if invert then roll * -1.0 else roll;
      var g := ForceGain(baseSpeed);
      assert Abs(direction * g) == Abs(roll) * Abs(g) by {
        if direction >= 0.0 && g >= 0.0 { assert direction * g >= 0.0; }
        else if direction >= 0.0 { assert direction * g <= 0.0; }
        else if g >= 0.0 { assert direction * g <= 0.0; }
        else { assert direction * g >= 0.0; }
      }
      assert baseSpeed >= 0.0 ==> direction * (direction * g) > 0.0 by {
        if baseSpeed >= 0.0 {
          assert direction * direction > 0.0;
          assert direction * (direction * g) == (direction * direction) * g;
        }
      }
      direction * g
    else
      0.0
  }

  /** Inverting the rotation exactly negates the force. */
  lemma InvertNegatesForce(isFist: bool, roll: real, baseSpeed: real)
    ensures RotationForce(isFist, roll, true, baseSpeed) == -RotationForce(isFist, roll, false, baseSpeed)
  {
  }

  /** The force is odd in the roll: mirroring the hand mirrors the push. */
  lemma ForceIsOdd(isFist: bool, roll: real, invert: bool, baseSpeed: real)
    ensures RotationForce(isFist, -roll, invert, baseSpeed) == -RotationForce(isFist, roll, invert, baseSpeed)
  {
  }

  // ---------------------------------------------------------------- smoothing

  /** Orbit-speed blend while a hand is seen: the gap to the force shrinks to
      exactly 0.9 of what it was and the result lies between old speed and force. */
  function SmoothSpeed(speed: real, force: real): (s: real)
    ensures force - s == SpeedRetention * (force - speed)
    ensures speed <= force ==> speed <= s <= force
    ensures force <= speed ==> force <= s <= speed
  {
    speed * SpeedRetention + force * ForceWeight
  }

  /** Orbit-speed decay while no hand is seen: the speed becomes 0.8 times
      its old value, except that a result smaller in magnitude than 0.0001 is
      snapped to exactly zero. So the result is zero or keeps the sign, never
      grows, and is never a residual drift below the threshold. */
  function DecaySpeed(speed: real): (s: real)
    ensures Abs(Decay * speed) >= SnapThreshold ==> s == Decay * speed
    ensures Abs(Decay * speed) < SnapThreshold ==> s == 0.0
    ensures s == 0.0 || Abs(s) >= SnapThreshold
    ensures Abs(s) <= Decay * Abs(speed)
  {
    var decayed := speed * Decay;
    if Abs(decayed) < SnapThreshold then 0.0 else decayed
  }

  /** `n` consecutive frames of decay. */
  function DecayFrames(speed: real, n: nat): real
  {
    if n == 0 then speed else DecaySpeed(DecayFrames(speed, n - 1))
  }

  /** `0.8^n * a`, built one factor at a time so that each step of a proof
      by induction stays linear; `DecayEnvelopeIsPow` gives the closed form. */
  function DecayEnvelope(a: real, n: nat): real
  {
    if n == 0 then a else Decay * DecayEnvelope(a, n - 1)
  }

  lemma {:induction false} DecayEnvelopeIsPow(a: real, n: nat)
    ensures DecayEnvelope(a, n) == Pow(Decay, n) * a
  {
    if n > 0 {
      DecayEnvelopeIsPow(a, n - 1);
      GapScales(Decay, Pow(Decay, n - 1), a, DecayEnvelope(a, n - 1), DecayEnvelope(a, n));
    }
  }

  lemma {:induction false} DecayFramesEnvelope(speed: real, n: nat)
    ensures Abs(DecayFrames(speed, n)) <= DecayEnvelope(Abs(speed), n)
  {
    if n > 0 {
      DecayFramesEnvelope(speed, n - 1);
    }
  }

  /** The magnitude after `n` blind frames is at most `0.8^n` of the start. */
  lemma DecayFramesBound(speed: real, n: nat)
    ensures Abs(DecayFrames(speed, n)) <= Pow(Decay, n) * Abs(speed)
  {
    DecayFramesEnvelope(speed, n);
    DecayEnvelopeIsPow(Abs(speed), n);
  }

  lemma {:induction false} DecayEnvelopeMonotone(a: real, b: real, n: nat)
    requires a <= b
    ensures DecayEnvelope(a, n) <= DecayEnvelope(b, n)
  {
    if n > 0 {
      DecayEnvelopeMonotone(a, b, n - 1);
    }
  }

  lemma DecayEnvelopeReachesZero(speed: real, n: nat)
    requires n >= 1
    requires DecayEnvelope(Abs(speed), n) < SnapThreshold
    ensures DecayFrames(speed, n) == 0.0
  {
    DecayFramesEnvelope(speed, n - 1);
    var prev := DecayFrames(speed, n - 1);
    assert Abs(prev * Decay) < SnapThreshold;
  }

  /** Once `0.8^n` times the starting magnitude is below the snap threshold,
      the speed is exactly zero after `n` blind frames. */
  lemma DecayReachesZero(speed: real, n: nat)
    requires n >= 1
    requires Pow(Decay, n) * Abs(speed) < SnapThreshold
    ensures DecayFrames(speed, n) == 0.0
  {
    DecayEnvelopeIsPow(Abs(speed), n);
    DecayEnvelopeReachesZero(speed, n);
  }

  /** 0.8^42 is below 0.0001 (about 0.000085). */
  lemma DecayPow42()
    ensures Pow(Decay, 42) < SnapThreshold
  {
    assert Pow(Decay, 2) == 0.64;
    PowAdd(Decay, 2, 2);
    PowAdd(Decay, 4, 4);
    PowAdd(Decay, 8, 2);
    var p10 := Pow(Decay, 10);
    assert p10 < 0.11;
    PowAdd(Decay, 10, 10);
    PowAdd(Decay, 20, 20);
    var p20 := Pow(Decay, 20);
    assert 0.0 < p10;
    assert p20 < 0.0121 by {
      assert p20 == p10 * p10;
      assert p10 * p10 < 0.11 * 0.11;
    }
    var p40 := Pow(Decay, 40);
    assert 0.0 < p20;
    assert p40 < 0.00014641 by {
      assert p40 == p20 * p20;
      assert p20 * p20 < 0.0121 * 0.0121;
    }
    PowAdd(Decay, 40, 2);
  }

  /** Any orbit speed of magnitude at most 1 rad/frame is exactly zero after
      42 consecutive frames without a hand. */
  lemma BlindSpeedStopsWithin42Frames(speed: real)
    requires Abs(speed) <= 1.0
    ensures DecayFrames(speed, 42) == 0.0
  {
    DecayPow42();
    DecayEnvelopeIsPow(1.0, 42);
    DecayEnvelopeMonotone(Abs(speed), 1.0, 42);
    DecayEnvelopeReachesZero(speed, 42);
  }

  // ---------------------------------------------------------------- telemetry

  /** Telemetry emitted when no hand is seen: all zero and false. */
  const NoHandSample: HandGestures := HandGestures(0.0, 0.0, false, false)

  /** Telemetry for a seen hand: the fist flag, the normalized pinch (0 during
      a fist, otherwise in [0, 1]) and the wrapped roll. */
  function SampleOf(hand: seq<Point>, m: MathFns): (g: HandGestures)
    requires IsHand(hand)
    ensures g.isDetected
    ensures 0.0 <= g.pinchDistance <= 1.0
    ensures g.isFist ==> g.pinchDistance == 0.0
    ensures !g.isFist ==> g.pinchDistance == NormalizePinch(PinchSpread(hand, m))
    ensures g.isFist <==> |set f | 0 <= f < FingerCount && FingerCurled(hand, f)| >= FistThreshold
    ensures g.rotationAngle == HandRoll(hand, m)
  {
    FistIffThreeCurled(hand);
    var fist := HandIsFist(hand);
    HandGestures(if fist then 0.0 else NormalizePinch(PinchSpread(hand, m)), HandRoll(hand, m), true, fist)
  }
}
