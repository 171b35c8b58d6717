/**
 * `OrbManager`: the single pickup orb.  It is alive or dead, sits at an angle,
 * and dies when its lifetime timer runs out; that expiry arms a one-shot
 * "just timed out" edge which `ConsumeJustTimedOut` reports exactly once.
 * Placing the orb visual is left out.
 */
module Orbs {

  /** What the orb shows: whether it is alive, its angle and its age. */
  datatype OrbView = OrbView(isAlive: bool, angleRad: real, timer: real)

  class OrbManager {
    var lifetimeSec: real
    var isAlive: bool
    var angleRad: real
    var timer: real
    /** false while an expiry has happened that nobody has consumed yet. */
    var timedOutConsumed: bool

    /** The timeout edge is armed only on a dead orb (only expiry arms it). */
    ghost predicate Valid()
      reads this
    {
      !timedOutConsumed ==> !isAlive
    }

    /** The edge that `ConsumeJustTimedOut` will report. */
    predicate TimeoutPending()
      reads this
    {
      !timedOutConsumed
    }

    function View(): OrbView
      reads this
    {
      OrbView(isAlive, angleRad, timer)
    }

    constructor (lifetimeSec: real)
      ensures Valid()
      ensures this.lifetimeSec == lifetimeSec && !isAlive && angleRad == 0.0 && timer == 0.0
      ensures !TimeoutPending()
    {
      this.lifetimeSec := lifetimeSec;
      isAlive := false;
      angleRad := 0.0;
      timer := 0.0;
      timedOutConsumed := true;
    }

    /** A fresh orb at `angleRad` with its timer at 0 and no pending edge. */
    method SpawnAtAngle(angleRad: real)
      modifies this
      ensures Valid()
      ensures this.angleRad == angleRad && timer == 0.0 && isAlive && !TimeoutPending()
      ensures lifetimeSec == old(lifetimeSec)
    {
      this.angleRad := angleRad;
      timer := 0.0;
      isAlive := true;
      timedOutConsumed := true;
    }

    /** Removes the orb (a pickup); any pending edge is dropped. */
    method Kill()
      modifies this
      ensures Valid()
      ensures !isAlive && !TimeoutPending()
      ensures angleRad == old(angleRad) && timer == old(timer) && lifetimeSec == old(lifetimeSec)
    {
      isAlive := false;
      timedOutConsumed := true;
    }

    /** Like `Kill`, and the timer goes back to 0. */
    method ResetAll()
      modifies this
      ensures Valid()
      ensures !isAlive && !TimeoutPending() && timer == 0.0
      ensures angleRad == old(angleRad) && lifetimeSec == old(lifetimeSec)
    {
      isAlive := false;
      timedOutConsumed := true;
      timer := 0.0;
    }

    /**
     * A dead orb is left alone.  A live one ages by `dt`; it dies, arming the
     * edge, exactly when its age reaches the lifetime.
     */
    method Tick(dt: real)
      requires Valid()
      modifies this
      ensures Valid()
      ensures angleRad == old(angleRad) && lifetimeSec == old(lifetimeSec)
      ensures !old(isAlive) ==> isAlive == old(isAlive) && timer == old(timer)
                                && TimeoutPending() == old(TimeoutPending())
      ensures old(isAlive) ==> timer == old(timer) + dt
      ensures old(isAlive) ==> (isAlive <==> timer < lifetimeSec)
      ensures old(isAlive) ==> (TimeoutPending() <==> !isAlive)
    {
      if !isAlive {
        return;
      }
      timer := timer + dt;
      if timer >= lifetimeSec {
        isAlive := false;
        timedOutConsumed := false;
      }
    }

    /** Reports a pending expiry once and clears it, so the next call reports false. */
    method ConsumeJustTimedOut() returns (fired: bool)
      requires Valid()
      modifies this`timedOutConsumed
      ensures Valid()
      ensures fired == old(TimeoutPending())
      ensures !TimeoutPending()
    {
      if !timedOutConsumed {
        timedOutConsumed := true;
        return true;
      }
      return false;
    }
  }
}
