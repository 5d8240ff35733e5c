/** The control record the component keeps between frames (`physicsState`)
    and its per-frame step, as pure functions: the gesture update of
    `processGestures`, the decay used when the detector or video is not
    ready, and the radius/angle advance at the top of the loop. The class in
    module Canvas performs these updates field by field and is proved
    against these functions. */
module Control {
  import opened Numeric
  import opened VoidTypes
  import opened Gestures
  import Motion

  datatype Option<T> = None | Some(value: T)

  const RadiusRate: real := 0.1
  /** `globalTime` grows by 0.02 every frame; it is informational only. */
  const TimeStep: real := 0.02

  datatype PhysicsState = PhysicsState(
    orbitAngle: real,
    orbitSpeed: real,
    currentRadius: real,
    targetRadius: real,
    handDetected: bool,
    isFist: bool,
    globalTime: real)

  /** The record as the component creates it. */
  const InitialPhysics: PhysicsState :=
    PhysicsState(0.0, 0.0, Motion.BaseRadius, Motion.BaseRadius, false, false, 0.0)

  /** Configuration read each frame. `verticalOffset` is the slider value
      already scaled by 0.02; `baseSpeed` is the sensitivity. */
  datatype Controls = Controls(verticalOffset: real, baseSpeed: real, invertRotation: bool)

  /** What holds of the record between frames: both radii stay within the
      range a pinch can ask for, and a fist is only ever reported with a hand. */
  predicate ControlInvariant(s: PhysicsState)
  {
    MinRadius <= s.targetRadius <= MaxRadius &&
    MinRadius <= s.currentRadius <= MaxRadius &&
    (s.isFist ==> s.handDetected)
  }

  lemma InitialPhysicsIsValid()
    ensures ControlInvariant(InitialPhysics)
  {
  }

  /** The detector's landmark list: empty when no hand is seen, otherwise
      the first hand carries the full landmark set. */
  predicate WellFormed(landmarks: seq<seq<Point>>)
  {
    landmarks == [] || IsHand(landmarks[0])
  }

  datatype Sensed = Sensed(state: PhysicsState, sample: HandGestures)

  /** The gesture update of `processGestures` (lines 317-382).
      With no hand, the flags drop, the speed decays, the target radius is
      kept and the telemetry is all zero. With a hand, the telemetry is the
      hand's reading `SampleOf` (fist by the three-of-four test, normalized
      pinch, wrapped roll), a non-fist pinch sets the target radius, a fist
      keeps it, and the speed blends toward the rotation force of that roll.
      The radius, angle and clock are never touched, the invariant is kept,
      and the new flags agree with the telemetry. */
  function SenseHand(s: PhysicsState, landmarks: seq<seq<Point>>, c: Controls, m: MathFns): (r: Sensed)
    requires WellFormed(landmarks)
    ensures ControlInvariant(s) ==> ControlInvariant(r.state)
    ensures r.state.orbitAngle == s.orbitAngle && r.state.currentRadius == s.currentRadius
    ensures r.state.globalTime == s.globalTime
    ensures r.sample.isDetected == r.state.handDetected == (landmarks != [])
    ensures r.sample.isFist == r.state.isFist
    ensures landmarks != [] ==> r.sample == SampleOf(landmarks[0], m)
    ensures 0.0 <= r.sample.pinchDistance <= 1.0
    ensures landmarks == [] ==> r.sample == NoHandSample && !r.state.isFist
    ensures landmarks == [] ==> r.state.orbitSpeed == DecaySpeed(s.orbitSpeed)
    ensures r.state.isFist || landmarks == [] ==> r.state.targetRadius == s.targetRadius
    ensures !r.state.isFist && landmarks != [] ==>
              r.state.targetRadius == TargetRadiusFor(r.sample.pinchDistance)
    ensures landmarks != [] ==>
              r.state.orbitSpeed == SmoothSpeed(s.orbitSpeed,
                RotationForce(r.state.isFist, r.sample.rotationAngle, c.invertRotation, c.baseSpeed))
  {
    if landmarks == [] then
      Sensed(s.(handDetected := false, isFist := false, orbitSpeed := DecaySpeed(s.orbitSpeed)), NoHandSample)
    else
      var g := SampleOf(landmarks[0], m);
      var target := if g.isFist then s.targetRadius else TargetRadiusFor(g.pinchDistance);
      var force := RotationForce(g.isFist, g.rotationAngle, c.invertRotation, c.baseSpeed);
      Sensed(s.(handDetected := true, isFist := g.isFist, targetRadius := target,
                orbitSpeed := SmoothSpeed(s.orbitSpeed, force)), g)
  }

  /** The frame's fallback when the detector or the video is not ready
      (lines 400-401): only the speed changes, decaying as with no hand; the
      hand and fist flags keep their last values. */
  function BlindStep(s: PhysicsState): (r: PhysicsState)
    ensures r.orbitSpeed == DecaySpeed(s.orbitSpeed)
    ensures r.(orbitSpeed := s.orbitSpeed) == s
  {
    s.(orbitSpeed := DecaySpeed(s.orbitSpeed))
  }

  /** Lines 404-405: the radius closes 10% of its gap to the target, so the
      gap shrinks to exactly 0.9 and the radius never overshoots; the angle
      advances by exactly the speed. Nothing else changes. */
  function AdvanceOrbit(s: PhysicsState): (r: PhysicsState)
    ensures s.targetRadius - r.currentRadius == 0.9 * (s.targetRadius - s.currentRadius)
    ensures s.currentRadius <= s.targetRadius ==> s.currentRadius <= r.currentRadius <= s.targetRadius
    ensures s.targetRadius <= s.currentRadius ==> s.targetRadius <= r.currentRadius <= s.currentRadius
    ensures r.orbitAngle - s.orbitAngle == s.orbitSpeed
    ensures r.(currentRadius := s.currentRadius, orbitAngle := s.orbitAngle) == s
  {
    s.(currentRadius := Approach(s.currentRadius, s.targetRadius, RadiusRate),
       orbitAngle := s.orbitAngle + s.orbitSpeed)
  }

  /** The detector is consulted only once it exists and the video has
      current data (`readyState` 2, HAVE_CURRENT_DATA, or more). */
  predicate DetectorReady(landmarkerLoaded: bool, videoReadyState: int)
    ensures DetectorReady(landmarkerLoaded, videoReadyState) ==> landmarkerLoaded
    ensures videoReadyState < 2 ==> !DetectorReady(landmarkerLoaded, videoReadyState)
    ensures landmarkerLoaded && videoReadyState >= 2 ==> DetectorReady(landmarkerLoaded, videoReadyState)
  {
    landmarkerLoaded && videoReadyState >= 2
  }

  datatype Stepped = Stepped(state: PhysicsState, telemetry: Option<HandGestures>)

  /** The control part of one frame (lines 390, 396-405): tick the clock,
      sense the hand if the detector is ready or decay otherwise, then advance
      radius and angle. Telemetry is emitted exactly when the detector ran.
      With a ready detector and no hand, both flags drop and the telemetry
      is all zero. With a ready detector and a hand, the telemetry is the hand's reading,
      the flags follow it, the target radius follows the pinch unless the
      hand is a fist, and the speed blends toward the rotation force.
      Without a hand, or without a ready detector, the speed decays and the
      target radius is kept; the angle always moves by the new speed. */
  function ControlStep(s: PhysicsState, ready: bool, landmarks: seq<seq<Point>>, c: Controls, m: MathFns): (r: Stepped)
    requires ready ==> WellFormed(landmarks)
    ensures ControlInvariant(s) ==> ControlInvariant(r.state)
    ensures r.state.globalTime == s.globalTime + TimeStep
    ensures r.telemetry.Some? == ready
    ensures ready ==> r.telemetry.value.isDetected == r.state.handDetected && r.telemetry.value.isFist == r.state.isFist
    ensures ready && landmarks == [] ==>
              r.telemetry.value == NoHandSample && !r.state.handDetected && !r.state.isFist
    ensures ready && landmarks != [] ==> r.telemetry.value == SampleOf(landmarks[0], m)
    ensures ready && landmarks != [] ==>
              var g := r.telemetry.value;
              r.state.handDetected && r.state.isFist == g.isFist &&
              r.state.targetRadius == (if g.isFist then s.targetRadius else TargetRadiusFor(g.pinchDistance)) &&
              r.state.orbitSpeed == SmoothSpeed(s.orbitSpeed, RotationForce(g.isFist, g.rotationAngle, c.invertRotation, c.baseSpeed))
    ensures !ready ==> r.state.handDetected == s.handDetected && r.state.isFist == s.isFist
    ensures !ready || landmarks == [] ==>
              r.state.orbitSpeed == DecaySpeed(s.orbitSpeed) && r.state.targetRadius == s.targetRadius
    ensures r.state.orbitAngle == s.orbitAngle + r.state.orbitSpeed
    ensures r.state.targetRadius - r.state.currentRadius == 0.9 * (r.state.targetRadius - s.currentRadius)
  {
    var ticked := s.(globalTime := s.globalTime + TimeStep);
    if ready then
      var sensed := SenseHand(ticked, landmarks, c, m);
      Stepped(AdvanceOrbit(sensed.state), Some(sensed.sample))
    else
      Stepped(AdvanceOrbit(BlindStep(ticked)), None)
  }

  /** `n` frames in which the detector sees no hand (or is not ready). */
  function BlindFrames(s: PhysicsState, ready: bool, c: Controls, m: MathFns, n: nat): PhysicsState
  {
    if n == 0 then s else ControlStep(BlindFrames(s, ready, c, m, n - 1), ready, [], c, m).state
  }

  /** Across blind frames the speed follows the decay sequence exactly, and
      the target radius stays where it was. */
  lemma {:induction false} BlindFramesDecay(s: PhysicsState, ready: bool, c: Controls, m: MathFns, n: nat)
    ensures BlindFrames(s, ready, c, m, n).orbitSpeed == DecayFrames(s.orbitSpeed, n)
    ensures BlindFrames(s, ready, c, m, n).targetRadius == s.targetRadius
  {
    if n > 0 {
      BlindFramesDecay(s, ready, c, m, n - 1);
    }
  }

  /** So with no hand for 42 frames, any speed of at most 1 rad/frame is
      exactly zero and the ring stops turning. */
  lemma BlindRingStops(s: PhysicsState, ready: bool, c: Controls, m: MathFns)
    requires Abs(s.orbitSpeed) <= 1.0
    ensures BlindFrames(s, ready, c, m, 42).orbitSpeed == 0.0
    ensures var later := BlindFrames(s, ready, c, m, 42);
            ControlStep(later, ready, [], c, m).state.orbitAngle == later.orbitAngle
  {
    BlindFramesDecay(s, ready, c, m, 42);
    BlindSpeedStopsWithin42Frames(s.orbitSpeed);
  }
}
