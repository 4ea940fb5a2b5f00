/** The scalar part of `updateCarPhysics`: the throttle and brake flags drive
    the speed, which is then clamped to the speed limit, and the turn flags
    drive the yaw angle. The constants are those of `PHYSICS`. */
module Physics {
  import opened Geometry

  const MaxSpeed: real := 1.5
  const Acceleration: real := 0.02
  const Braking: real := 0.04
  const Deceleration: real := 0.01
  const TurnSpeed: real := 0.02

  predicate InSpeedRange(speed: real)
  {
    -MaxSpeed <= speed <= MaxSpeed
  }

  /** `Math.max(-maxSpeed, Math.min(maxSpeed, v))`. */
  function Clamp(v: real): (r: real)
    ensures InSpeedRange(r)
    ensures InSpeedRange(v) ==> r == v
    ensures v > MaxSpeed ==> r == MaxSpeed
    ensures v < -MaxSpeed ==> r == -MaxSpeed
  {
    Max(-MaxSpeed, Min(MaxSpeed, v))
  }

  /** The speed before clamping: accelerate and brake each apply when their
      flag is set, so both together give a net -0.02; with neither set, the
      speed decays by 1%. */
  function Throttle(speed: real, accelerate: bool, brake: bool): (r: real)
    ensures accelerate && !brake ==> r == speed + 0.02
    ensures !accelerate && brake ==> r == speed - 0.04
    ensures accelerate && brake ==> r == speed - 0.02
    ensures !accelerate && !brake ==> r == speed * 0.99
  {
    var afterAccelerate := if accelerate then speed + Acceleration else speed;
    var afterBrake := if brake then afterAccelerate - Braking else afterAccelerate;
    if !accelerate && !brake then afterBrake * (1.0 - Deceleration) else afterBrake
  }

  function NextSpeed(speed: real, accelerate: bool, brake: bool): (r: real)
    ensures InSpeedRange(r)
  {
    Clamp(Throttle(speed, accelerate, brake))
  }

  /** `rotation.y` after the turn flags: +0.02 to the left, -0.02 to the
      right; both flags together, or neither, leave it unchanged. */
  function NextYaw(yaw: real, turnLeft: bool, turnRight: bool): (r: real)
    ensures turnLeft == turnRight ==> r == yaw
    ensures turnLeft && !turnRight ==> r == yaw + 0.02
    ensures !turnLeft && turnRight ==> r == yaw - 0.02
  {
    var afterLeft := if turnLeft then yaw + TurnSpeed else yaw;
    if turnRight then afterLeft - TurnSpeed else afterLeft
  }

  /** Clamping preserves the order of speeds. */
  lemma ClampMonotone(u: real, v: real)
    requires u <= v
    ensures Clamp(u) <= Clamp(v)
  {
  }

  /** Within the speed limit, braking never gives more speed than coasting,
      coasting never more than accelerating, and adding the brake to the
      throttle never more than the throttle alone. */
  lemma {:induction false} ControlsOrderSpeed(speed: real)
    requires InSpeedRange(speed)
    ensures NextSpeed(speed, false, true) <= NextSpeed(speed, false, false) <= NextSpeed(speed, true, false)
    ensures NextSpeed(speed, true, true) <= NextSpeed(speed, true, false)
  {
    ClampMonotone(Throttle(speed, false, true), Throttle(speed, false, false));
    ClampMonotone(Throttle(speed, false, false), Throttle(speed, true, false));
    ClampMonotone(Throttle(speed, true, true), Throttle(speed, true, false));
  }

  function Abs(x: real): real { if x < 0.0 then -x else x }

  /** Coasting never increases the magnitude of the speed nor reverses it. */
  lemma CoastingDecays(speed: real)
    ensures Abs(NextSpeed(speed, false, false)) <= Abs(speed)
    ensures speed >= 0.0 ==> NextSpeed(speed, false, false) >= 0.0
    ensures speed <= 0.0 ==> NextSpeed(speed, false, false) <= 0.0
  {
  }

  /** Halving, the penalty for leaving the track, keeps the speed in range. */
  lemma HalvingKeepsRange(speed: real)
    requires InSpeedRange(speed)
    ensures InSpeedRange(speed * 0.5)
    ensures Abs(speed * 0.5) <= Abs(speed)
  {
  }
}
