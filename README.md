# Void canvas gesture engine

A Dafny model of the per-frame gesture-to-motion engine of the `VoidCanvas`
component: a ring of twelve rocks orbiting under the control of one tracked
hand. Each animation frame:

- classifies the hand (fist or not, pinch width, roll);
- smooths the result into a small control record (`physicsState`: orbit
  angle and speed, current and target ring radius, hand and fist flags, a
  clock);
- advances every rock by one step of a two-mode machine. A sleeping rock is
  eased toward its slot on the ring. An awake rock is integrated under
  gravity, friction and a floor bounce. A fist wakes every rock once, with a
  launch velocity. Releasing the fist puts every rock back to sleep, with no
  snap back to the ring.

Modules:

- `VoidTypes` (`types.dfy`): the records of `types.ts`, i.e. `Point`,
  `RockEntity`, `VoidState` and `HandGestures`.
- `Numeric` (`numeric.dfy`): `Math.PI`, absolute value, min/max, powers,
  and the easing step shared by the radius and the sleeping rocks. Also the
  host's `Math.sin`, `Math.cos`, `Math.atan2` and `Math.sqrt` as a `MathFns`
  value of uninterpreted functions. No property of their values is assumed.
- `Gestures` (`gestures.dfy`): the classifier and smoother of
  `processGestures` as pure functions. It holds the finger-curl test, the
  fist threshold, the pinch clamp, the target radius, the roll with its dead
  zone and rotation force, and the two speed-smoothing rules. It also holds
  `CountCurled`, the loop that counts curled fingers.
- `Control` (`control.dfy`): the control record and its per-frame step as
  functions. These are the specification the class below is proved against.
- `Motion` (`motion.dfy`): rock start-up, ring slots, the orbit target, the
  launch, the fall step with its bounce, the ring easing, and one rock's
  whole frame (`StepRock`).
- `Canvas` (`canvas.dfy`): class `VoidCanvas`. Its fields are those of
  `physicsState` and it holds an `array` of twelve rocks. It has:
  - the constructor;
  - `ProcessGestures`, which writes the fields step by step;
  - `UpdateControl`, `StepRocks` and `Frame`, one pass of the animation loop.

  Each method's contract ties the new fields to the `Control` functions and
  each new rock to `Motion.StepRock`. `Frame` also keeps the between-frame
  invariant `Valid()`:
  - both radii lie in [1.5, 5.5];
  - a fist implies a hand;
  - every rock keeps its id and ring slot;
  - every rock is asleep exactly when the last frame was not collapsing;
  - an awake rock is never below the floor offset.

Inputs from outside the component are parameters:

- the landmark list the detector returned;
- whether the detector is loaded, and the video's `readyState`;
- the slider values (`verticalOffset`, already scaled; `baseSpeed`;
  `invertRotation`);
- the host math functions;
- every `Math.random()` draw: a seed and a yaw per rock at start-up, and
  seven launch draws per rock per frame.

## Model

| member | source | states |
|---|---|---|
| Gestures.FingerCurled | components/VoidCanvas.tsx:336-341 | a finger is curled when its tip's squared distance to the wrist is below 1.1 times its PIP joint's; so a tip no farther than a PIP away from the wrist counts as curled, and one at least 1.1 times as far does not |
| Gestures.CountCurled | components/VoidCanvas.tsx:332-342 | the loop counts exactly the fingers whose tip is nearer the wrist than 1.1 times its PIP joint (squared distances, tips 8/12/16/20 against PIPs 6/10/14/18); the count is at most 4 |
| Gestures.FistIffThreeCurled | components/VoidCanvas.tsx:332-344 | a hand is a fist if and only if the set of curled fingers has at least three members |
| Gestures.CurlingOneFinger | components/VoidCanvas.tsx:343-344 | curling one more finger yields a fist exactly when at least two were already curled, so going from 2 curled to 3 flips the flag to true |
| Gestures.ExtendingOneFinger | components/VoidCanvas.tsx:343-344 | extending one curled finger keeps a fist exactly when four were curled |
| Gestures.FistMonotone | components/VoidCanvas.tsx:332-344 | curling more fingers never lowers the count and never undoes a fist |
| Gestures.CountTrueIsCardinality | components/VoidCanvas.tsx:332-342 | counting the curl flags one by one gives the number of positions that are curled |
| Gestures.CountTrueUpdate | components/VoidCanvas.tsx:342 | changing one curl flag changes the count by exactly that flag's contribution |
| Gestures.PinchSpread | components/VoidCanvas.tsx:349-351 | the thumb-to-index spread is the host square root of the squared distance, the same whichever tip comes first, and the Euclidean distance wherever that root is a true non-negative square root |
| Gestures.NormalizePinch | components/VoidCanvas.tsx:352 | the pinch value always lies in [0, 1]; on [0.02, 0.22] it is the exact linear map (dist = 0.02 + 0.2 n); at or below 0.02 it is 0 and at or above 0.22 it is 1 |
| Gestures.NormalizePinchMonotone | components/VoidCanvas.tsx:352 | a wider thumb-to-index distance never yields a smaller pinch value |
| Gestures.TargetRadiusFor | components/VoidCanvas.tsx:353 | the radius asked for lies in [1.5, 5.5], and the pinch value is recovered from it as (r - 1.5) / 4 |
| Gestures.HandRoll | components/VoidCanvas.tsx:357-365 | the roll is an angle in radians in (-pi, pi] wherever the host's atan2 returns angles in that range, as the wrap through atan2(sin, cos) intends |
| Gestures.PointingDownHasNoRoll | components/VoidCanvas.tsx:357-365 | the roll is measured from the downward vertical -pi/2: a hand pointing straight down has roll 0 wherever the host wraps 0 to 0 |
| Gestures.HandRollReadsOffset | components/VoidCanvas.tsx:357-365 | two hands with the same wrist-to-MCP offset have the same roll, wherever they are and whatever their other landmarks |
| Gestures.RotationForce | components/VoidCanvas.tsx:366-372 | the force is 0 during a fist or when the roll is at most 0.15 rad; otherwise its magnitude is the roll's magnitude times the gain 0.05 + 4 baseSpeed; for a non-negative sensitivity it pushes with the roll, or against it when inverted |
| Gestures.InvertNegatesForce | components/VoidCanvas.tsx:370 | turning on inversion exactly negates the force |
| Gestures.ForceIsOdd | components/VoidCanvas.tsx:366-372 | mirroring the roll mirrors the force (the dead zone is symmetric) |
| Canvas.ForceFor | components/VoidCanvas.tsx:366-372 | the force computed with its in-place sign flip equals `RotationForce` |
| Gestures.SmoothSpeed | components/VoidCanvas.tsx:374 | blending 0.9 of the old speed with 0.1 of the force leaves exactly 0.9 of the gap to the force, and the result lies between the old speed and the force |
| Gestures.DecaySpeed | components/VoidCanvas.tsx:321-322 | without a hand the speed becomes exactly 0.8 times the old value when that product is at least 0.0001 in magnitude, and exactly 0 when it is below; so it never grows and never keeps a sub-threshold residue |
| Gestures.DecayFramesBound | components/VoidCanvas.tsx:321-322 | after n hand-less frames the speed's magnitude is at most 0.8^n times its start |
| Gestures.DecayReachesZero | components/VoidCanvas.tsx:321-322 | once 0.8^n times the starting magnitude is below 0.0001, the speed is exactly 0 after n frames |
| Gestures.DecayPow42 | components/VoidCanvas.tsx:321-322 | 0.8^42 is below the snap threshold 0.0001 |
| Gestures.BlindSpeedStopsWithin42Frames | components/VoidCanvas.tsx:321-322 | any speed of at most 1 rad/frame is exactly zero after 42 frames without a hand |
| Gestures.SampleOf | components/VoidCanvas.tsx:344-380 | the telemetry for a seen hand: detected; pinch in [0, 1], 0 during a fist, else the normalized pinch; fist flag true exactly when at least three fingers are curled; rotation angle equal to the wrapped roll |
| Control.InitialPhysicsIsValid | components/VoidCanvas.tsx:92-100 | the initial control record (radii 3.5, flags false) satisfies the control invariant |
| Control.SenseHand | components/VoidCanvas.tsx:317-382 | without a hand: flags false, all-zero telemetry, decayed speed, target radius kept. With a hand: the telemetry is the hand's reading `SampleOf` (three-of-four fist test, normalized pinch, wrapped roll), the pinch sets the target radius unless fisting, and the speed blends toward the rotation force. Angle, radius and clock untouched; telemetry agrees with the flags; pinch in [0, 1]; the control invariant is kept |
| Control.DetectorReady | components/VoidCanvas.tsx:396 | the detector runs only when it is loaded and the video's readyState is at least 2; both conditions are needed and together they suffice |
| Control.BlindStep | components/VoidCanvas.tsx:399-402 | when the detector or video is not ready only the speed changes, by the same decay; flags and target radius are kept |
| Control.AdvanceOrbit | components/VoidCanvas.tsx:404-405 | the radius closes 10% of its gap (the gap shrinks to exactly 0.9) and never overshoots the target; the angle grows by exactly the speed; nothing else changes |
| Control.ControlStep | components/VoidCanvas.tsx:317-405 | one frame of the control record: the clock gains 0.02; telemetry is emitted exactly when the detector ran and then agrees with the flags; with a ready detector and no hand both flags drop and the telemetry is all zero; with a ready detector and a hand the telemetry is `SampleOf` the hand, the target radius follows its pinch unless it is a fist, and the speed blends toward its rotation force; when not ready the flags are kept; with no hand or no detector the speed decays and the target is kept; the angle moves by the new speed; the radius gap shrinks to 0.9; the invariant is kept |
| Control.BlindFramesDecay | components/VoidCanvas.tsx:318-402 | across hand-less frames the speed follows the decay sequence exactly and the target radius never moves |
| Control.BlindRingStops | components/VoidCanvas.tsx:318-405 | after 42 hand-less frames from a speed of at most 1 rad/frame the speed is 0 and the ring angle stops changing |
| Motion.RingSlot | components/VoidCanvas.tsx:182 | rock i's ring phase (i/12) 2 pi lies in [0, 2 pi) |
| Motion.RingSlotsIncrease | components/VoidCanvas.tsx:182 | ring phases strictly increase with the index, so no two rocks share a slot |
| Motion.SpawnRock | components/VoidCanvas.tsx:177-191 | a new rock has its index as id, its seed, a ring slot in [0, 2 pi), a yaw in [0, 2 pi) for a random draw, sits at the origin at rest with no spin, and is asleep |
| Motion.SpawnedRockIsValid | components/VoidCanvas.tsx:177-191 | every spawned rock satisfies the rock invariant of a non-collapsed ring |
| Motion.OrbitTarget | components/VoidCanvas.tsx:411-416 | the orbit target lies in the plane z = 0 |
| Motion.OrbitTargetOnCircle | components/VoidCanvas.tsx:411-416 | where sin^2 + cos^2 = 1, the target lies on the circle of the current radius about (0, verticalOffset) |
| Motion.LaunchSpeed | components/VoidCanvas.tsx:425-428 | above 0.01 rad/frame of orbit speed the tangential speed is speed times radius times 8; otherwise it is a random value in [-0.1, 0.1) |
| Motion.Launch | components/VoidCanvas.tsx:419-436 | a woken rock is awake, snapped to its orbit target, keeps identity, slot and rotation; its vx is the cosine of the tangent angle (orbit + pi/2) times the launch speed plus a jitter (within 0.05 for random draws); and for random draws it gets vy in [-0.02, 0.08), vz in [-0.25, 0.25) and each spin in [-0.05, 0.05) |
| Motion.FallStep | components/VoidCanvas.tsx:438-457 | after a fall step the rock is never below the floor offset -3.5; regime, identity and slot are kept |
| Motion.FreeFlight | components/VoidCanvas.tsx:438-457 | clear of the floor, gravity is applied, then friction, then the move; spins are kept and each rotation advances by its spin |
| Motion.FloorClamp | components/VoidCanvas.tsx:438-457 | a rock whose move would end below the floor offset, wherever it started, is put on the offset with its post-gravity vertical speed reflected and halved, horizontal speeds at 0.8 of the post-friction value, each spin at 0.9, and each rotation advanced by the damped spin |
| Motion.FloorBounce | components/VoidCanvas.tsx:438-452 | a rock crossing the floor offset from on or above it rests on it and rebounds upward (positive vy) with half its post-gravity downward speed |
| Motion.LinkedStep | components/VoidCanvas.tsx:458-463 | a non-collapsing frame puts the rock to sleep; each coordinate closes 8% of its gap to the target; the yaw grows by 0.02; velocities, spins, pitch and roll are untouched |
| Motion.StepRock | components/VoidCanvas.tsx:407-464 | one rock's frame: asleep exactly when the frame is not collapsing, never below the floor offset while collapsing, identity and slot kept |
| Motion.AwakeRockIsNotRelaunched | components/VoidCanvas.tsx:418-436 | an awake rock's collapse step ignores the orbit values, random draws and trigonometry: it is the plain fall step |
| Motion.LaunchOncePerCollapse | components/VoidCanvas.tsx:418-436 | in two collapse frames in a row the second never launches again |
| Motion.WakeStartsFromTarget | components/VoidCanvas.tsx:419-423 | a sleeping rock woken by a collapse starts its fall from its orbit target |
| Motion.ReleaseDoesNotSnap | components/VoidCanvas.tsx:458-463 | on release a rock only closes 8% of its gap to the ring and keeps its velocities, whatever regime it was in |
| Motion.LinkedFramesEase | components/VoidCanvas.tsx:458-463 | toward a still target each coordinate follows the same easing sequence as the radius |
| Motion.LinkedFramesConverge | components/VoidCanvas.tsx:458-463 | after n ring frames toward a still target each gap is 0.92^n of the first |
| Motion.StepKeepsRockInvariant | components/VoidCanvas.tsx:407-464 | every frame re-establishes the rock invariant (id, slot, regime matching the collapse flag, awake rocks above the floor offset) |
| Numeric.Approach | components/VoidCanvas.tsx:404 | an easing step leaves exactly (1 - rate) of the gap and never overshoots the target |
| Numeric.ApproachFramesGap | components/VoidCanvas.tsx:404 | after n easing steps the gap is (1 - rate)^n of the first |
| Numeric.ApproachFramesDescend | components/VoidCanvas.tsx:404 | starting above the target, the eased value strictly decreases and never reaches the target |
| Canvas.VoidCanvas.constructor | components/VoidCanvas.tsx:92-191 | the fields start as the initial control record and the array holds the twelve spawned rocks, so the invariant holds |
| Canvas.VoidCanvas.ProcessGestures | components/VoidCanvas.tsx:317-382 | the fields written step by step end as `SenseHand` says, the emitted telemetry is its sample, and the rock array is untouched |
| Canvas.VoidCanvas.UpdateControl | components/VoidCanvas.tsx:390-405 | clock, gesture or decay, radius and angle written in place end as `ControlStep` says |
| Canvas.VoidCanvas.StepRocks | components/VoidCanvas.tsx:407-464 | every rock in the array is replaced by its `StepRock` under the same collapse flag and orbit values, each exactly once |
| Canvas.VoidCanvas.Frame | components/VoidCanvas.tsx:387-464 | one loop pass: the control fields follow `ControlStep`, every rock follows `StepRock` under the new fist flag, and the invariant `Valid()` is kept |

## Left out

- Rendering: the Three.js scene, camera, lights, resizing and mesh updates
  (lines 103-171, 466-475). These are graphics output with no checkable logic.
- GLTF loading, `SkeletonUtils.clone`, the animation mixers and `delta`
  (lines 80-90, 194-267, 388-394). These are asynchronous asset handling.
  `globalTime` is kept and only ticks.
- MediaPipe detector creation, `getUserMedia` and `detectForVideo`
  (lines 271-315, 397). The detector's result is an input. A `null`
  landmark list is folded into the empty list, which the source treats the
  same way.
- `requestAnimationFrame` scheduling and cleanup. One frame is one call of
  `Frame`.
- The UI layer, the slider mappings and the mocked analysis service. Their
  results enter as `Controls`.
- Floating-point rounding. All quantities are reals.
- The values of `atan2`, `sin`, `cos` and `sqrt`. They are uninterpreted,
  so nothing is proved that depends on them. For example, the roll is not
  shown to lie in [-pi, pi], and `OrbitTargetOnCircle` takes the
  Pythagorean identity as a hypothesis.
- `Math.random()`. Each draw is a parameter. `ValidDraws` / `IsDraw` state
  the [0, 1) range where a bound depends on it.
- Which values of the host's random sequence a launch receives is not
  modelled. The speed draw is taken only at low orbit speed, which shifts
  the later draws; the model names each draw instead.
- The lifecycle enum `VoidState` is a datatype only. The component's state
  reporting is loading and error plumbing outside the modelled engine.
- Canvas.VoidCanvas.ProcessGestures: the pinch clamp and the target radius
  (lines 352-353) are single expressions in the source. The method
  evaluates them through `NormalizePinch` and `TargetRadiusFor` rather than
  inline.
- Motion.StepRock: each rock's fields are written one by one in the source.
  The model replaces the whole record in its array slot. Rocks are never
  aliased, so the end state is the same.
- A hand with fewer than 21 landmarks is a precondition (`WellFormed`). The
  source would read undefined points and throw, not treat it as absence.
- There is no guard against non-finite values. The source has none.

Behaviour of the code worth stating plainly:

- When the detector or video is not ready, the code decays the speed but
  does not reset `handDetected` or `isFist`, unlike the empty-landmark
  path. So the rocks stay in their regime. This is `Control.BlindStep`.
- The floor bounce reflects the speed after gravity is applied. A rock
  arriving with `vy = -0.4` leaves with `0.5 * (0.015 + 0.4) = 0.2075`.
  This is `Motion.FloorBounce`.
- Malformed landmark data is not treated as absence (see above), and no
  non-finite value is reset.
