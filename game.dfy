/** The mutable game state the frame routines update in place: the speed
    scalar of `GAME_STATE`, the car's ground position and yaw, and the two
    routines that change them, `updateCarPhysics` and `checkTrackBoundaries`. */
module Game {
  import opened Geometry
  import opened RayCasting
  import opened Nearest
  import opened Physics
  import opened Controls

  /** The correction step: 10% of the way from p towards the target vertex. */
  function Nudge(p: Point, target: Point): (q: Point)
    ensures Dist2(q, target) == 0.81 * Dist2(p, target)
    ensures Dist2(p, q) == 0.01 * Dist2(p, target)
  {
    (p.0 + (target.0 - p.0) * 0.1, p.1 + (target.1 - p.1) * 0.1)
  }

  /** `position.add(direction.multiplyScalar(speed))` on the ground plane:
      the car moves by `speed` times the length of `dir` (a unit vector in
      the game), and stands still at speed 0. */
  function Advance(p: Point, dir: Point, speed: real): (r: Point)
    ensures speed == 0.0 ==> r == p
    ensures Dist2(p, r) == speed * speed * Dist2(dir, (0.0, 0.0))
  {
    (p.0 + dir.0 * speed, p.1 + dir.1 * speed)
  }

  /** The car mesh, reduced to what the routines read and write:
      `position.x`, `position.z` and `rotation.y`. */
  class Car {
    var x: real
    var z: real
    var yaw: real

    constructor (x0: real, z0: real, yaw0: real)
      ensures x == x0 && z == z0 && yaw == yaw0
    {
      x, z, yaw := x0, z0, yaw0;
    }

    function Position(): Point
      reads this
    {
      (x, z)
    }
  }

  /** `GAME_STATE`, reduced to the speed, the car and the controls. */
  class GameState {
    var carSpeed: real
    var car: Car?
    const controls: ControlFlags

    /** `carSpeed` starts at 0, no car exists yet and no key is held. */
    constructor ()
      ensures carSpeed == 0.0 && car == null
      ensures fresh(controls) && controls.State() == ControlState(false, false, false, false, false)
    {
      carSpeed, car := 0.0, null;
      controls := new ControlFlags();
    }

    /** `updateCarPhysics`. The speed is updated and clamped, the car moves
        along `dir`, its world direction (computed by `getWorldDirection` from
        the yaw it had before this frame's turn), by the new speed, and then
        the yaw turns. Nothing happens while there is no car. */
    method UpdateCarPhysics(dir: Point)
      modifies this`carSpeed, car
      ensures old(car) == null ==> carSpeed == old(carSpeed)
      ensures car != null ==>
        && carSpeed == NextSpeed(old(carSpeed), controls.accelerate, controls.brake)
        && InSpeedRange(carSpeed)
        && car.Position() == Advance(old(car.Position()), dir, carSpeed)
        && car.yaw == NextYaw(old(car.yaw), controls.turnLeft, controls.turnRight)
    {
      if car == null {
        return;
      }
      ghost var speed0, yaw0 := carSpeed, car.yaw;
      if controls.accelerate {
        carSpeed := carSpeed + Acceleration;
      }
      if controls.brake {
        carSpeed := carSpeed - Braking;
      }
      if !controls.accelerate && !controls.brake {
        carSpeed := carSpeed * (1.0 - Deceleration);
      }
      assert carSpeed == Throttle(speed0, controls.accelerate, controls.brake);
      carSpeed := Max(-MaxSpeed, Min(MaxSpeed, carSpeed));
      assert carSpeed == NextSpeed(speed0, controls.accelerate, controls.brake);
      var c := car;
      var moved := Advance(c.Position(), dir, carSpeed);
      c.x, c.z := moved.0, moved.1;
      if controls.turnLeft {
        c.yaw := c.yaw + TurnSpeed;
      }
      if controls.turnRight {
        c.yaw := c.yaw - TurnSpeed;
      }
      assert c.yaw == NextYaw(yaw0, controls.turnLeft, controls.turnRight);
    }

    /** `checkTrackBoundaries`. Inside the boundary polygon (even-odd rule)
        nothing changes and the answer is true. Outside, the speed is halved,
        the car is moved 10% of the way to the nearest boundary vertex, the
        first one of least distance, and the answer is false. The source
        reads `boundaries[0]` unguarded, so a boundary with no vertex is not
        accepted. */
    method CheckTrackBoundaries(car: Car, boundaries: seq<Point>) returns (inside: bool)
      requires |boundaries| > 0
      modifies this`carSpeed, car`x, car`z
      ensures inside == Inside(boundaries, old(car.Position()))
      ensures inside ==> carSpeed == old(carSpeed) && car.Position() == old(car.Position())
      ensures !inside ==>
        && carSpeed == old(carSpeed) * 0.5
        && car.Position() == Nudge(old(car.Position()), boundaries[NearestIndex(boundaries, old(car.Position()), |boundaries|)])
      ensures InSpeedRange(old(carSpeed)) ==> InSpeedRange(carSpeed)
    {
      var carPosition := (car.x, car.z);
      var isInsideTrack := RayCastInside(boundaries, carPosition);
      if !isInsideTrack {
        carSpeed := carSpeed * 0.5;
        var nearestPoint, _ := NearestVertex(boundaries, carPosition);
        car.x := car.x + (nearestPoint.value.0 - carPosition.0) * 0.1;
        car.z := car.z + (nearestPoint.value.1 - carPosition.1) * 0.1;
        return false;
      }
      return true;
    }
  }
}
