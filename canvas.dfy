/** The component's per-frame engine as the source runs it: the fields of
    the `physicsState` record and the array of twelve rocks, updated in place
    by `processGestures` and by one pass of the animation loop. Each method is
    proved against the pure step functions of modules Control and Motion. */
module Canvas {
  import opened Numeric
  import opened VoidTypes
  import opened Gestures
  import opened Control
  import opened Motion

  /** Lines 366-372: the rotation force, with the direction flipped in place
      when rotation is inverted. */
  method ForceFor(isFist: bool, roll: real, invert: bool, baseSpeed: real) returns (rotationForce: real)
    ensures rotationForce == RotationForce(isFist, roll, invert, baseSpeed)
  {
    rotationForce := 0.0;
    if !isFist && Abs(roll) > DeadZone {
      var direction := roll;
      if invert {
        direction := direction * -1.0;
      }
      rotationForce := direction * (BaseForce + baseSpeed * SensitivityGain);
    }
  }

  class VoidCanvas {
    var orbitAngle: real
    var orbitSpeed: real
    var currentRadius: real
    var targetRadius: real
    var handDetected: bool
    var isFist: bool
    var globalTime: real
    var rocks: array<RockEntity>

    /** The fields as one `physicsState` value. */
    function State(): PhysicsState
      reads this
    {
      PhysicsState(orbitAngle, orbitSpeed, currentRadius, targetRadius, handDetected, isFist, globalTime)
    }

    /** Between frames: the control invariant holds, there are twelve rocks,
        and each rock keeps its id and slot, is asleep exactly when the last
        frame was not collapsing, and rests on or above the floor offset while awake. */
    ghost predicate Valid()
      reads this, rocks
    {
      ControlInvariant(State()) &&
      rocks.Length == RocksCount &&
      forall i :: 0 <= i < rocks.Length ==> RockInvariant(rocks[i], i, isFist)
    }

    /** Start-up (lines 92-100 and 177-191): the initial control record and
        twelve sleeping rocks on their ring slots, each with its own seed and
        random yaw. */
    constructor (seeds: seq<real>, yawDraws: seq<real>)
      requires |seeds| == RocksCount && |yawDraws| == RocksCount
      ensures Valid() && fresh(rocks)
      ensures State() == InitialPhysics
      ensures forall i :: 0 <= i < RocksCount ==> rocks[i] == SpawnRock(i, seeds[i], yawDraws[i])
    {
      orbitAngle := 0.0;
      orbitSpeed := 0.0;
      currentRadius := BaseRadius;
      targetRadius := BaseRadius;
      handDetected := false;
      isFist := false;
      globalTime := 0.0;
      var spawned := new RockEntity[RocksCount];
      for i := 0 to RocksCount
        invariant forall j :: 0 <= j < i ==> spawned[j] == SpawnRock(j, seeds[j], yawDraws[j])
      {
        spawned[i] := SpawnRock(i, seeds[i], yawDraws[i]);
      }
      forall i | 0 <= i < RocksCount
        ensures RockInvariant(spawned[i], i, false)
      {
        SpawnedRockIsValid(i, seeds[i], yawDraws[i]);
      }
      rocks := spawned;
    }

    /** `processGestures` (lines 317-382), writing the control fields step by
        step and returning the telemetry it emits. */
    method ProcessGestures(landmarks: seq<seq<Point>>, c: Controls, m: MathFns) returns (sample: HandGestures)
      requires WellFormed(landmarks)
      modifies this
      ensures rocks == old(rocks)
      ensures State() == SenseHand(old(State()), landmarks, c, m).state
      ensures sample == SenseHand(old(State()), landmarks, c, m).sample
    {
      if landmarks == [] {
        handDetected := false;
        isFist := false;
        orbitSpeed := orbitSpeed * Decay;
        if Abs(orbitSpeed) < SnapThreshold {
          orbitSpeed := 0.0;
        }
        sample := NoHandSample;
        return;
      }

      handDetected := true;
      var hand := landmarks[0];
      var wrist := hand[Wrist];

      var curledCount := CountCurled(hand);
      var fist := curledCount >= FistThreshold;
      isFist := fist;

      var normalizedDist := 0.0;
      if !fist {
        var thumb, indexFinger := hand[ThumbTip], hand[IndexTip];
        var dist := m.sqrt(SqDist(thumb, indexFinger));
        normalizedDist := NormalizePinch(dist);
        targetRadius := TargetRadiusFor(normalizedDist);
      }

      var middleMcp := hand[MiddleMcp];
      var dx, dy := middleMcp.x - wrist.x, middleMcp.y - wrist.y;
      var angle := m.atan2(dy, dx);
      var vertical := -PI / 2.0;
      var diff := angle - vertical;
      var normalizedDiff := m.atan2(m.sin(diff), m.cos(diff));
      assert normalizedDiff == HandRoll(hand, m);

      var rotationForce := ForceFor(fist, normalizedDiff, c.invertRotation, c.baseSpeed);

      orbitSpeed := orbitSpeed * SpeedRetention + rotationForce * ForceWeight;
      sample := HandGestures(normalizedDist, normalizedDiff, true, fist);
    }

    /** The control half of one loop pass (lines 390 and 396-405): tick the
        clock, read the hand or decay the speed, then advance radius and angle.
        Returns the telemetry emitted, if the detector ran. */
    method UpdateControl(landmarkerLoaded: bool, videoReadyState: int, landmarks: seq<seq<Point>>,
                         c: Controls, m: MathFns) returns (telemetry: Option<HandGestures>)
      requires DetectorReady(landmarkerLoaded, videoReadyState) ==> WellFormed(landmarks)
      modifies this
      ensures rocks == old(rocks)
      ensures var step := ControlStep(old(State()), DetectorReady(landmarkerLoaded, videoReadyState), landmarks, c, m);
              State() == step.state && telemetry == step.telemetry
    {
      globalTime := globalTime + TimeStep;

      if landmarkerLoaded && videoReadyState >= 2 {
        var sample := ProcessGestures(landmarks, c, m);
        telemetry := Some(sample);
      } else {
        orbitSpeed := orbitSpeed * Decay;
        if Abs(orbitSpeed) < SnapThreshold {
          orbitSpeed := 0.0;
        }
        telemetry := None;
      }

      currentRadius := currentRadius + (targetRadius - currentRadius) * RadiusRate;
      orbitAngle := orbitAngle + orbitSpeed;
    }

    /** The rock half of one loop pass (lines 407-464): every rock is
        replaced, in place, by its step under the same collapse flag and orbit
        values; each is visited exactly once. */
    method StepRocks(collapsing: bool, frame: OrbitFrame, draws: seq<LaunchDraws>, m: MathFns)
      requires |draws| == rocks.Length
      modifies rocks
      ensures forall i :: 0 <= i < rocks.Length ==> rocks[i] == StepRock(old(rocks[i]), collapsing, frame, draws[i], m)
    {
      for i := 0 to rocks.Length
        invariant forall j :: 0 <= j < i ==> rocks[j] == StepRock(old(rocks[j]), collapsing, frame, draws[j], m)
        invariant forall j :: i <= j < rocks.Length ==> rocks[j] == old(rocks[j])
      {
        rocks[i] := StepRock(rocks[i], collapsing, frame, draws[i], m);
      }
    }

    /** One pass of the animation loop (lines 390 and 396-464): the control
        update followed by the rock update, with the flag and orbit values the
        control update left. The frame keeps the between-frame invariant. */
    method Frame(landmarkerLoaded: bool, videoReadyState: int, landmarks: seq<seq<Point>>,
                 c: Controls, m: MathFns, draws: seq<LaunchDraws>) returns (telemetry: Option<HandGestures>)
      requires Valid()
      requires |draws| == RocksCount
      requires DetectorReady(landmarkerLoaded, videoReadyState) ==> WellFormed(landmarks)
      modifies this, rocks
      ensures Valid() && rocks == old(rocks)
      ensures var step := ControlStep(old(State()), DetectorReady(landmarkerLoaded, videoReadyState), landmarks, c, m);
              State() == step.state && telemetry == step.telemetry
      ensures forall i :: 0 <= i < RocksCount ==>
                rocks[i] == StepRock(old(rocks[i]), isFist,
                                     OrbitFrame(orbitAngle, orbitSpeed, currentRadius, c.verticalOffset), draws[i], m)
    {
      telemetry := UpdateControl(landmarkerLoaded, videoReadyState, landmarks, c, m);
      var frame := OrbitFrame(orbitAngle, orbitSpeed, currentRadius, c.verticalOffset);
      StepRocks(isFist, frame, draws, m);

      forall i | 0 <= i < rocks.Length
        ensures RockInvariant(rocks[i], i, isFist)
      {
        StepKeepsRockInvariant(old(rocks[i]), i, old(isFist), isFist, frame, draws[i], m);
      }
    }
  }
}
