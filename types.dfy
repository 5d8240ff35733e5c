/** The records the gesture engine works on: a hand landmark, a rock of the
    ring, the component's lifecycle state and the per-frame gesture sample. */
module VoidTypes {

  /** A normalized 2D hand landmark as the detector reports it. */
  datatype Point = Point(x: real, y: real)

  /** One body of the ring of twelve. `angleOffset` is its fixed phase on the
      ring; positions, velocities and rotations are world-space values.
      `isSleeping` selects the motion regime: true means the ring orbit drives
      the rock, false means the physics integrator does. */
  datatype RockEntity = RockEntity(
    id: int,
    seed: real,
    angleOffset: real,
    x: real, y: real, z: real,
    vx: real, vy: real, vz: real,
    rotX: real, rotY: real, rotZ: real,
    rotVelX: real, rotVelY: real, rotVelZ: real,
    isSleeping: bool)

  /** Lifecycle of the component, reported to the UI layer. */
  datatype VoidState = Idle | LoadingVision | Active | Error

  /** Gesture telemetry emitted once per processed frame, for display only. */
  datatype HandGestures = HandGestures(
    pinchDistance: real,
    rotationAngle: real,
    isDetected: bool,
    isFist: bool)
}
