/**
 * `PlayerController`: the player's position on the track (an angle), its
 * direction of travel (+1 or -1) and its angular speed in degrees per second.
 * Placing the glow-ball visual is left out; `hasTrack` records whether a track
 * has been attached, which is all that `Tick` consults.
 */
module Players {
  import opened Mathf
  import opened Angles

  /** The signed turn, in radians, of `dt` seconds at `degPerSec` in direction `dir`. */
  function TurnRad(dir: int, degPerSec: real, dt: real): real
  {
    (dir as real * degPerSec * dt) * Deg2Rad
  }

  class PlayerController {
    var hasTrack: bool
    var angleRad: real
    var dir: int
    var angularSpeedDegPerSec: real

    /** The direction is a unit sign and the speed is never negative. */
    ghost predicate Valid()
      reads this
    {
      (dir == 1 || dir == -1) && angularSpeedDegPerSec >= 0.0
    }

    /** The serialized defaults: angle 0, direction +1, 90 degrees per second. */
    constructor (hasTrack: bool)
      ensures Valid()
      ensures this.hasTrack == hasTrack && angleRad == 0.0 && dir == 1 && angularSpeedDegPerSec == 90.0
    {
      this.hasTrack := hasTrack;
      angleRad := 0.0;
      dir := 1;
      angularSpeedDegPerSec := 90.0;
    }

    /** A negative speed request is stored as 0. */
    method SetAngularSpeed(degPerSec: real)
      requires Valid()
      modifies this`angularSpeedDegPerSec
      ensures Valid()
      ensures angularSpeedDegPerSec == Max(0.0, degPerSec)
      ensures degPerSec >= 0.0 ==> angularSpeedDegPerSec == degPerSec
    {
      angularSpeedDegPerSec := Max(0.0, degPerSec);
    }

    /** Puts the player at `startAngleRad` moving in the positive direction; the speed is kept. */
    method ResetPlayer(startAngleRad: real)
      requires Valid()
      modifies this`angleRad, this`dir
      ensures Valid()
      ensures angleRad == startAngleRad && dir == 1
    {
      angleRad := startAngleRad;
      dir := 1;
    }

    /** Reverses the direction; flipping twice restores it. */
    method Flip()
      requires Valid()
      modifies this`dir
      ensures Valid()
      ensures dir == -old(dir) && dir != old(dir)
    {
      dir := dir * -1;
    }

    /** The signed angle, in radians, that one tick of `dt` seconds moves the player by. */
    function StepRad(dt: real): (r: real)
      reads this`dir, this`angularSpeedDegPerSec
      ensures angularSpeedDegPerSec >= 0.0 && dt >= 0.0 ==> (dir > 0 ==> r >= 0.0) && (dir < 0 ==> r <= 0.0)
    {
      TurnRad(dir, angularSpeedDegPerSec, dt)
    }

    /**
     * With a track, the angle moves by `dir * speed * dt` degrees and is wrapped
     * back into [0, 2π); without one nothing happens.  Direction and speed are kept.
     */
    method Tick(dt: real)
      requires Valid()
      modifies this`angleRad
      ensures Valid()
      ensures !hasTrack ==> angleRad == old(angleRad)
      ensures hasTrack ==> 0.0 <= angleRad < TwoPi
      ensures hasTrack ==> angleRad == WrapRad(old(angleRad) + StepRad(dt))
    {
      if !hasTrack {
        return;
      }
      var deltaDeg := dir as real * angularSpeedDegPerSec * dt;
      assert deltaDeg * Deg2Rad == StepRad(dt);
      angleRad := WrapRad(angleRad + deltaDeg * Deg2Rad);
    }
  }
}
