/** The per-rock motion of the animation loop: the ring slot each rock is
    born in, its orbit target, the one-time launch when a collapse wakes it,
    the free-fall integrator with its floor bounce, and the easing back toward
    the ring while it sleeps. The frame's collapse flag picks the regime for
    every rock; `isSleeping` only decides whether a collapsing rock is
    launched first, and after every frame it equals the negated flag. */
module Motion {
  import opened Numeric
  import opened VoidTypes

  const RocksCount: nat := 12
  const BaseRadius: real := 3.5

  /** Physics constants of the collapse regime. */
  const Gravity: real := 0.015
  const BounceDamping: real := 0.5
  const Friction: real := 0.98
  const FloorY: real := -4.0
  /** Rocks rest half a unit above the floor plane. */
  const FloorOffset: real := FloorY + 0.5
  /** On a bounce, horizontal speed keeps 0.8 and every spin keeps 0.9. */
  const FloorSlide: real := 0.8
  const FloorSpin: real := 0.9

  /** Ring regime: ease 8% of the way per frame, idle spin of 0.02 rad. */
  const LinkRate: real := 0.08
  const IdleSpin: real := 0.02

  /** Launch: above this orbit speed the tangential speed is `speed * r * 8`. */
  const LaunchThreshold: real := 0.01
  const LaunchGain: real := 8.0

  /** Rock `i`'s phase on the ring, `(i / 12) * 2 pi`, in [0, 2 pi). */
  function RingSlot(i: nat): (a: real)
    requires i < RocksCount
    ensures 0.0 <= a < 2.0 * PI
  {
    (i as real / RocksCount as real) * PI * 2.0
  }

  /** Slots increase with the index, so no two rocks share a phase. */
  lemma RingSlotsIncrease(i: nat, j: nat)
    requires i < j < RocksCount
    ensures RingSlot(i) < RingSlot(j)
  {
  }

  /** A value of `Math.random()`. */
  predicate IsDraw(u: real)
  {
    0.0 <= u < 1.0
  }

  /** Rock `i` as created at start-up: at the origin, at rest, asleep on its
      ring slot, with a random yaw in [0, 2 pi). */
  function SpawnRock(i: nat, seed: real, yawDraw: real): (k: RockEntity)
    requires i < RocksCount
    ensures k.id == i && k.seed == seed && k.isSleeping
    ensures 0.0 <= k.angleOffset < 2.0 * PI
    ensures IsDraw(yawDraw) ==> 0.0 <= k.rotY < 2.0 * PI
    ensures k.x == k.y == k.z == 0.0 && k.vx == k.vy == k.vz == 0.0
    ensures k.rotX == k.rotZ == 0.0 && k.rotVelX == k.rotVelY == k.rotVelZ == 0.0
  {
    RockEntity(i, seed, RingSlot(i),
               0.0, 0.0, 0.0,
               0.0, 0.0, 0.0,
               0.0, yawDraw * PI * 2.0, 0.0,
               0.0, 0.0, 0.0,
               true)
  }

  datatype Vec3 = Vec3(x: real, y: real, z: real)

  /** The values every rock reads in one frame, after the control step. */
  datatype OrbitFrame = OrbitFrame(orbitAngle: real, orbitSpeed: real, radius: real, verticalOffset: real)

  /** The ring position for phase `orbit`: `(cos(orbit) r, offset + sin(orbit) r, 0)`. */
  function OrbitTarget(orbit: real, radius: real, verticalOffset: real, m: MathFns): (t: Vec3)
    ensures t.z == 0.0
  {
    Vec3(m.cos(orbit) * radius, verticalOffset + m.sin(orbit) * radius, 0.0)
  }

  /** Wherever sine and cosine satisfy the Pythagorean identity, the target
      lies on the circle of the current radius around `(0, verticalOffset)`. */
  lemma OrbitTargetOnCircle(orbit: real, radius: real, verticalOffset: real, m: MathFns)
    requires m.sin(orbit) * m.sin(orbit) + m.cos(orbit) * m.cos(orbit) == 1.0
    ensures var t := OrbitTarget(orbit, radius, verticalOffset, m);
            t.x * t.x + (t.y - verticalOffset) * (t.y - verticalOffset) == radius * radius
  {
    var s, c := m.sin(orbit), m.cos(orbit);
    calc {
      (c * radius) * (c * radius) + (s * radius) * (s * radius);
      (c * c + s * s) * (radius * radius);
      radius * radius;
    }
  }

  /** Rock `k`'s target in frame `f`. */
  function TargetOf(k: RockEntity, f: OrbitFrame, m: MathFns): Vec3
  {
    OrbitTarget(f.orbitAngle + k.angleOffset, f.radius, f.verticalOffset, m)
  }

  /** The seven `Math.random()` values one launch consumes. */
  datatype LaunchDraws = LaunchDraws(speed: real, vx: real, vy: real, vz: real, spinX: real, spinY: real, spinZ: real)

  predicate ValidDraws(d: LaunchDraws)
  {
    IsDraw(d.speed) && IsDraw(d.vx) && IsDraw(d.vy) && IsDraw(d.vz) &&
    IsDraw(d.spinX) && IsDraw(d.spinY) && IsDraw(d.spinZ)
  }

  /** Tangential launch speed: proportional to the orbit speed and radius
      when the ring was turning faster than 0.01 rad/frame, otherwise a random
      value in [-0.1, 0.1). */
  function LaunchSpeed(orbitSpeed: real, radius: real, draw: real): (s: real)
    ensures Abs(orbitSpeed) > LaunchThreshold ==> s == orbitSpeed * radius * LaunchGain
    ensures Abs(orbitSpeed) <= LaunchThreshold && IsDraw(draw) ==> -0.1 <= s < 0.1
  {
    if Abs(orbitSpeed) > LaunchThreshold then orbitSpeed * radius * LaunchGain else (draw - 0.5) * 0.2
  }

  /** The wake-up of lines 419-436: the rock leaves the ring awake, snapped
      onto its orbit target, with a tangential launch plus jitter and a small
      random spin. Its rotation, identity and slot are kept. */
  function Launch(k: RockEntity, f: OrbitFrame, d: LaunchDraws, m: MathFns): (r: RockEntity)
    ensures !r.isSleeping
    ensures Vec3(r.x, r.y, r.z) == TargetOf(k, f, m)
    ensures r.vx == m.cos(f.orbitAngle + k.angleOffset + PI / 2.0) * LaunchSpeed(f.orbitSpeed, f.radius, d.speed)
                    + (d.vx - 0.5) * 0.1
    ensures ValidDraws(d) ==> -0.05 <= r.vx - m.cos(f.orbitAngle + k.angleOffset + PI / 2.0) * LaunchSpeed(f.orbitSpeed, f.radius, d.speed) < 0.05
    ensures r.id == k.id && r.seed == k.seed && r.angleOffset == k.angleOffset
    ensures r.rotX == k.rotX && r.rotY == k.rotY && r.rotZ == k.rotZ
    ensures ValidDraws(d) ==> -0.02 <= r.vy < 0.08 && -0.25 <= r.vz < 0.25
    ensures ValidDraws(d) ==> -0.05 <= r.rotVelX < 0.05 && -0.05 <= r.rotVelY < 0.05 && -0.05 <= r.rotVelZ < 0.05
  {
    var orbit := f.orbitAngle + k.angleOffset;
    var t := OrbitTarget(orbit, f.radius, f.verticalOffset, m);
    var tangentAngle := orbit + PI / 2.0;
    var speed := LaunchSpeed(f.orbitSpeed, f.radius, d.speed);
    k.(isSleeping := false,
       x := t.x, y := t.y, z := t.z,
       vx := m.cos(tangentAngle) * speed + (d.vx - 0.5) * 0.1,
       vy := (d.vy - 0.2) * 0.1,
       vz := (d.vz - 0.5) * 0.5,
       rotVelX := (d.spinX - 0.5) * 0.1,
       rotVelY := (d.spinY - 0.5) * 0.1,
       rotVelZ := (d.spinZ - 0.5) * 0.1)
  }

  /** One frame of free fall (lines 438-457): gravity, then friction, then
      the move; a rock that would end below the floor offset is put on it. So
      after the step the rock is never below the floor offset, and the
      regime, identity and slot are kept. */
  function FallStep(k: RockEntity): (r: RockEntity)
    ensures r.y >= FloorOffset
    ensures r.isSleeping == k.isSleeping
    ensures r.id == k.id && r.seed == k.seed && r.angleOffset == k.angleOffset
  {
    var vy := k.vy - Gravity;
    var vx := k.vx * Friction;
    var vz := k.vz * Friction;
    var x, y, z := k.x + vx, k.y + vy, k.z + vz;
    if y < FloorOffset then
      var rvx, rvy, rvz := k.rotVelX * FloorSpin, k.rotVelY * FloorSpin, k.rotVelZ * FloorSpin;
      k.(x := x, y := FloorOffset, z := z,
         vx := vx * FloorSlide, vy := vy * -BounceDamping, vz := vz * FloorSlide,
         rotVelX := rvx, rotVelY := rvy, rotVelZ := rvz,
         rotX := k.rotX + rvx, rotY := k.rotY + rvy, rotZ := k.rotZ + rvz)
    else
      k.(x := x, y := y, z := z, vx := vx, vy := vy, vz := vz,
         rotX := k.rotX + k.rotVelX, rotY := k.rotY + k.rotVelY, rotZ := k.rotZ + k.rotVelZ)
  }

  /** Clear of the floor, a falling rock moves by its velocity after gravity
      and friction, and keeps its spin. */
  lemma FreeFlight(k: RockEntity)
    requires k.y + k.vy - Gravity >= FloorOffset
    ensures var r := FallStep(k);
            r.vy == k.vy - Gravity && r.vx == Friction * k.vx && r.vz == Friction * k.vz &&
            r.x == k.x + r.vx && r.y == k.y + r.vy && r.z == k.z + r.vz &&
            r.rotVelX == k.rotVelX && r.rotVelY == k.rotVelY && r.rotVelZ == k.rotVelZ &&
            r.rotX == k.rotX + k.rotVelX && r.rotY == k.rotY + k.rotVelY && r.rotZ == k.rotZ + k.rotVelZ
  {
  }

  /** A rock whose move would end below the floor offset, wherever it
      started (a woken rock can start below it, on a low ring), is put on the
      offset: its post-gravity vertical speed is reflected and halved, its
      horizontal speed keeps 0.8 of the post-friction value, each spin keeps
      0.9, and the rotation advances by the damped spin. */
  lemma FloorClamp(k: RockEntity)
    requires k.y + k.vy - Gravity < FloorOffset
    ensures var r := FallStep(k);
            r.y == FloorOffset && r.vy == BounceDamping * (Gravity - k.vy) &&
            r.x == k.x + Friction * k.vx && r.z == k.z + Friction * k.vz &&
            r.vx == FloorSlide * Friction * k.vx && r.vz == FloorSlide * Friction * k.vz &&
            r.rotVelX == FloorSpin * k.rotVelX && r.rotVelY == FloorSpin * k.rotVelY &&
            r.rotVelZ == FloorSpin * k.rotVelZ &&
            r.rotX == k.rotX + r.rotVelX && r.rotY == k.rotY + r.rotVelY && r.rotZ == k.rotZ + r.rotVelZ
  {
  }

  /** A rock that starts on or above the floor offset and would cross it
      rebounds upward: it was falling, so its reflected speed is positive. */
  lemma FloorBounce(k: RockEntity)
    requires k.y >= FloorOffset
    requires k.y + k.vy - Gravity < FloorOffset
    ensures var r := FallStep(k);
            r.y == FloorOffset && r.vy > 0.0 && r.vy == BounceDamping * (Gravity - k.vy)
  {
    FloorClamp(k);
  }

  /** One frame of the ring regime (lines 459-463): the rock is marked
      asleep and each coordinate closes 8% of its gap to the target, the yaw
      turns by 0.02, and velocities, spins, pitch and roll are untouched. */
  function LinkedStep(k: RockEntity, t: Vec3): (r: RockEntity)
    ensures r.isSleeping
    ensures t.x - r.x == 0.92 * (t.x - k.x) && t.y - r.y == 0.92 * (t.y - k.y) && t.z - r.z == 0.92 * (t.z - k.z)
    ensures r.rotY == k.rotY + IdleSpin && r.rotX == k.rotX && r.rotZ == k.rotZ
    ensures r.vx == k.vx && r.vy == k.vy && r.vz == k.vz
    ensures r.rotVelX == k.rotVelX && r.rotVelY == k.rotVelY && r.rotVelZ == k.rotVelZ
    ensures r.id == k.id && r.seed == k.seed && r.angleOffset == k.angleOffset
  {
    k.(isSleeping := true,
       x := Approach(k.x, t.x, LinkRate),
       y := Approach(k.y, t.y, LinkRate),
       z := Approach(k.z, t.z, LinkRate),
       rotY := k.rotY + IdleSpin)
  }

  /** One rock's update in one frame: during a collapse a sleeping rock is
      launched and then falls while an awake rock just falls; otherwise the
      rock eases toward its ring target. Afterwards the rock is asleep exactly
      when the frame is not collapsing, an awake rock is never below the floor
      offset, and identity and slot are kept. */
  function StepRock(k: RockEntity, collapsing: bool, f: OrbitFrame, d: LaunchDraws, m: MathFns): (r: RockEntity)
    ensures r.isSleeping == !collapsing
    ensures collapsing ==> r.y >= FloorOffset
    ensures r.id == k.id && r.seed == k.seed && r.angleOffset == k.angleOffset
  {
    if collapsing then
      FallStep(if k.isSleeping then Launch(k, f, d, m) else k)
    else
      LinkedStep(k, TargetOf(k, f, m))
  }

  /** A rock already awake is never launched again: its collapse step does
      not depend on the frame's orbit values, the random draws or the
      trigonometry, and is the plain fall step. */
  lemma AwakeRockIsNotRelaunched(k: RockEntity, f1: OrbitFrame, d1: LaunchDraws, m1: MathFns,
                                 f2: OrbitFrame, d2: LaunchDraws, m2: MathFns)
    requires !k.isSleeping
    ensures StepRock(k, true, f1, d1, m1) == StepRock(k, true, f2, d2, m2) == FallStep(k)
  {
  }

  /** Two collapse frames in a row: the second frame ignores its launch
      inputs, so the launch happens once per entry into the collapse. */
  lemma LaunchOncePerCollapse(k: RockEntity, f1: OrbitFrame, d1: LaunchDraws, f2: OrbitFrame, d2: LaunchDraws, m: MathFns)
    ensures var first := StepRock(k, true, f1, d1, m);
            StepRock(first, true, f2, d2, m) == FallStep(first)
  {
    AwakeRockIsNotRelaunched(StepRock(k, true, f1, d1, m), f2, d2, m, f2, d2, m);
  }

  /** A sleeping rock woken by a collapse starts its fall from its orbit
      target: the launch snaps it there before the first fall step. */
  lemma WakeStartsFromTarget(k: RockEntity, f: OrbitFrame, d: LaunchDraws, m: MathFns)
    requires k.isSleeping
    ensures var launched := Launch(k, f, d, m);
            StepRock(k, true, f, d, m) == FallStep(launched) &&
            Vec3(launched.x, launched.y, launched.z) == TargetOf(k, f, m)
  {
  }

  /** Releasing the fist does not snap a scattered rock back: its position
      only closes 8% of the gap to the ring target, whatever regime it was in. */
  lemma ReleaseDoesNotSnap(k: RockEntity, f: OrbitFrame, d: LaunchDraws, m: MathFns)
    ensures var t, r := TargetOf(k, f, m), StepRock(k, false, f, d, m);
            r.isSleeping && t.x - r.x == 0.92 * (t.x - k.x) && t.y - r.y == 0.92 * (t.y - k.y) &&
            t.z - r.z == 0.92 * (t.z - k.z) && r.vx == k.vx && r.vy == k.vy && r.vz == k.vz
  {
  }

  /** `n` ring-regime frames toward a fixed target. */
  function LinkedFrames(k: RockEntity, t: Vec3, n: nat): RockEntity
  {
    if n == 0 then k else LinkedStep(LinkedFrames(k, t, n - 1), t)
  }

  /** With the target held still, each coordinate follows the shared easing
      rule of the radius, frame after frame. */
  lemma {:induction false} LinkedFramesEase(k: RockEntity, t: Vec3, n: nat)
    ensures var r := LinkedFrames(k, t, n);
            r.x == ApproachFrames(k.x, t.x, LinkRate, n) &&
            r.y == ApproachFrames(k.y, t.y, LinkRate, n) &&
            r.z == ApproachFrames(k.z, t.z, LinkRate, n)
  {
    if n > 0 {
      LinkedFramesEase(k, t, n - 1);
    }
  }

  /** So after `n` ring frames toward a still target every gap is `0.92^n`
      of the first, and the rock converges onto the target. */
  lemma LinkedFramesConverge(k: RockEntity, t: Vec3, n: nat)
    ensures var r := LinkedFrames(k, t, n);
            t.x - r.x == Pow(1.0 - LinkRate, n) * (t.x - k.x) &&
            t.y - r.y == Pow(1.0 - LinkRate, n) * (t.y - k.y) &&
            t.z - r.z == Pow(1.0 - LinkRate, n) * (t.z - k.z)
  {
    LinkedFramesEase(k, t, n);
    ApproachFramesGap(k.x, t.x, LinkRate, n);
    ApproachFramesGap(k.y, t.y, LinkRate, n);
    ApproachFramesGap(k.z, t.z, LinkRate, n);
  }

  /** The rock-side part of the frame invariant: rock `i` keeps its id and
      ring slot, its regime matches the collapse flag, and while awake it is
      never below the floor offset. */
  predicate RockInvariant(k: RockEntity, i: nat, collapsed: bool)
  {
    i < RocksCount && k.id == i && k.angleOffset == RingSlot(i) &&
    k.isSleeping == !collapsed && (!k.isSleeping ==> k.y >= FloorOffset)
  }

  /** A freshly spawned rock satisfies the invariant of a non-collapsed ring. */
  lemma SpawnedRockIsValid(i: nat, seed: real, yawDraw: real)
    requires i < RocksCount
    ensures RockInvariant(SpawnRock(i, seed, yawDraw), i, false)
  {
  }

  /** Every frame re-establishes the rock invariant for the frame's collapse
      flag, whatever the flag was before. */
  lemma StepKeepsRockInvariant(k: RockEntity, i: nat, collapsed: bool, collapsing: bool,
                               f: OrbitFrame, d: LaunchDraws, m: MathFns)
    requires RockInvariant(k, i, collapsed)
    ensures RockInvariant(StepRock(k, collapsing, f, d, m), i, collapsing)
  {
  }
}
