/**
 * `ObstacleArc`: one danger arc on the track.  Its phase machine runs
 * Telegraph -> Travelling -> Stick -> Fading -> Dead, each phase ending when
 * the phase timer reaches that phase's duration; `ForceFade` jumps straight to
 * Fading and keeps the arc at the radius it had.  Which phases are dangerous
 * depends on the configured hit mode.
 *
 * The arc's whole state is also available as a value (`ArcState`), and the
 * class's mutators are specified by pure functions on that value (`Initial`,
 * `Step`, `ForceFaded`), so that the spawner and the lemmas can speak about
 * what a tick does.  The line renderer (vertices, colour, alpha) is left out.
 */
module Arcs {
  import opened Mathf
  import opened Angles
  import opened FlipOrbitConfig

  datatype Phase = Telegraph | Travelling | Stick | Fading | Dead

  /** Position of a phase in the lifecycle. */
  function Rank(p: Phase): nat
  {
    match p
    case Telegraph => 0
    case Travelling => 1
    case Stick => 2
    case Fading => 3
    case Dead => 4
  }

  /** The phase that follows `p`; Dead is last. */
  function NextPhase(p: Phase): (q: Phase)
    ensures p != Dead ==> Rank(q) == Rank(p) + 1
    ensures p == Dead ==> q == Dead
  {
    match p
    case Telegraph => Travelling
    case Travelling => Stick
    case Stick => Fading
    case Fading => Dead
    case Dead => Dead
  }

  /** The hit-mode table: the phases in which an arc is a hazard. */
  predicate DangerousIn(phase: Phase, mode: ArcHitMode)
    ensures DangerousIn(phase, mode) ==> phase != Dead
    ensures phase == Stick ==> DangerousIn(phase, mode)
  {
    match mode
    case StickOnly => phase == Stick
    case TravelAndStick => phase == Travelling || phase == Stick
    case TelegraphTravelStick => phase == Telegraph || phase == Travelling || phase == Stick
    case AllPhasesIncludingFade =>
      phase == Telegraph || phase == Travelling || phase == Stick || phase == Fading
  }

  /** Dead is never dangerous, Stick always is, and each mode includes the previous one. */
  lemma DangerousModesNested(phase: Phase)
    ensures !DangerousIn(Dead, StickOnly) && !DangerousIn(Dead, TravelAndStick)
    ensures !DangerousIn(Dead, TelegraphTravelStick) && !DangerousIn(Dead, AllPhasesIncludingFade)
    ensures DangerousIn(Stick, StickOnly)
    ensures DangerousIn(phase, StickOnly) ==> DangerousIn(phase, TravelAndStick)
    ensures DangerousIn(phase, TravelAndStick) ==> DangerousIn(phase, TelegraphTravelStick)
    ensures DangerousIn(phase, TelegraphTravelStick) ==> DangerousIn(phase, AllPhasesIncludingFade)
    ensures DangerousIn(phase, AllPhasesIncludingFade) <==> phase != Dead
  {
  }

  /** The value of an arc: its set-up (fixed by `Init`) and its runtime phase state. */
  datatype ArcState = ArcState(
    track: Option<real>,
    centerAngleRad: real,
    halfWidthRad: real,
    telegraphTime: real,
    travelTime: real,
    stickTime: real,
    fadeTime: real,
    startRadiusScale: real,
    telegraphOffsetScale: real,
    phase: Phase,
    timer: real,
    forcedFade: bool,
    fadeStartRadius: real)

  /** The clamps `Init` applies, kept by every later step. */
  ghost predicate WellFormed(s: ArcState)
  {
    && s.halfWidthRad >= 0.0
    && s.telegraphTime >= 0.05
    && s.travelTime >= 0.01
    && s.stickTime >= 0.0
    && s.fadeTime >= 0.01
    && s.startRadiusScale >= 1.25
    && s.telegraphOffsetScale >= 1.10
    && (s.track.Some? ==> s.track.value >= 0.0)
  }

  /** The two states have the same set-up except possibly the fade time. */
  predicate SameShape(s: ArcState, r: ArcState)
  {
    && r.track == s.track
    && r.centerAngleRad == s.centerAngleRad
    && r.halfWidthRad == s.halfWidthRad
    && r.telegraphTime == s.telegraphTime
    && r.travelTime == s.travelTime
    && r.stickTime == s.stickTime
    && r.startRadiusScale == s.startRadiusScale
    && r.telegraphOffsetScale == s.telegraphOffsetScale
  }

  /** `Init`: half width from the arc size, durations and scales clamped, phase Telegraph at time 0. */
  function Initial(track: Option<real>, centerAngleRad: real, arcSizeDeg: real,
                   telegraph: real, travel: real, stick: real, fade: real,
                   startRadiusScale: real, telegraphOffsetScale: real): (s: ArcState)
    requires track.Some? ==> track.value >= 0.0
    ensures WellFormed(s)
    ensures s.phase == Telegraph && s.timer == 0.0 && !s.forcedFade
    ensures s.track == track && s.centerAngleRad == centerAngleRad
    ensures s.halfWidthRad * 360.0 == Abs(arcSizeDeg) * 0.5 * TwoPi
    ensures telegraph >= 0.05 ==> s.telegraphTime == telegraph
    ensures travel >= 0.01 ==> s.travelTime == travel
    ensures stick >= 0.0 ==> s.stickTime == stick
    ensures fade >= 0.01 ==> s.fadeTime == fade
    ensures startRadiusScale >= 1.25 ==> s.startRadiusScale == startRadiusScale
    ensures telegraphOffsetScale >= 1.10 ==> s.telegraphOffsetScale == telegraphOffsetScale
  {
    ArcState(track, centerAngleRad, Deg2Rad * Abs(arcSizeDeg) * 0.5,
             Max(0.05, telegraph), Max(0.01, travel), Max(0.0, stick), Max(0.01, fade),
             Max(1.25, startRadiusScale), Max(1.10, telegraphOffsetScale),
             Telegraph, 0.0, false, 0.0)
  }

  /** How long the current phase lasts. */
  function PhaseDuration(s: ArcState): real
  {
    match s.phase
    case Telegraph => s.telegraphTime
    case Travelling => s.travelTime
    case Stick => s.stickTime
    case Fading => s.fadeTime
    case Dead => 0.0
  }

  /** `Tick(dt)` on the value of an arc; `StepIsPhaseMachine` states what it does. */
  function Step(s: ArcState, dt: real): (r: ArcState)
    ensures SameShape(s, r)
    ensures r.phase == s.phase || r.phase == NextPhase(s.phase)
  {
    if s.phase == Dead then s
    else
      var t := s.timer + dt;
      match s.phase
      case Telegraph =>
        if t >= s.telegraphTime then s.(phase := Travelling, timer := 0.0, forcedFade := false)
        else s.(timer := t)
      case Travelling =>
        if t >= s.travelTime then s.(phase := Stick, timer := 0.0, forcedFade := false)
        else s.(timer := t)
      case Stick =>
        if t >= s.stickTime then s.(phase := Fading, timer := 0.0, forcedFade := false)
        else s.(timer := t)
      case Fading =>
        if t >= s.fadeTime then s.(phase := Dead, timer := t)
        else s.(timer := t)
  }

  /**
   * `Tick(dt)`: a Dead arc is left as it is.  Otherwise the timer grows by `dt`
   * and, once it reaches the phase's duration, the arc moves to the next phase;
   * the first three transitions restart the timer and clear the forced-fade
   * mark.  The set-up never changes.
   */
  lemma StepIsPhaseMachine(s: ArcState, dt: real)
    ensures var r := Step(s, dt);
      && (s.phase == Dead ==> r == s)
      && SameShape(s, r) && r.fadeTime == s.fadeTime && r.fadeStartRadius == s.fadeStartRadius
      && (r.phase == s.phase || r.phase == NextPhase(s.phase))
      && (r.phase != s.phase <==> s.phase != Dead && s.timer + dt >= PhaseDuration(s))
      && (s.phase != Dead && (r.phase == s.phase || s.phase == Fading) ==> r.timer == s.timer + dt)
      && (r.phase != s.phase && s.phase != Fading ==> r.timer == 0.0 && !r.forcedFade)
      && (r.phase == s.phase || s.phase == Fading ==> r.forcedFade == s.forcedFade)
  {
  }

  /** The state after a series of ticks. */
  function Run(s: ArcState, dts: seq<real>): ArcState
    decreases |dts|
  {
    if dts == [] then s else Run(Step(s, dts[0]), dts[1..])
  }

  /**
   * Over any series of ticks the phase never moves backwards and advances by at
   * most one phase per tick; the set-up is kept throughout.
   */
  lemma {:induction false} RunIsMonotone(s: ArcState, dts: seq<real>)
    ensures Rank(s.phase) <= Rank(Run(s, dts).phase) <= Rank(s.phase) + |dts|
    ensures SameShape(s, Run(s, dts)) && Run(s, dts).fadeTime == s.fadeTime
    decreases |dts|
  {
    if dts != [] {
      StepIsPhaseMachine(s, dts[0]);
      RunIsMonotone(Step(s, dts[0]), dts[1..]);
    }
  }

  /** Once Dead, an arc stays Dead and unchanged whatever the ticks. */
  lemma {:induction false} DeadIsAbsorbing(s: ArcState, dts: seq<real>)
    requires s.phase == Dead
    ensures Run(s, dts) == s
    decreases |dts|
  {
    if dts != [] {
      DeadIsAbsorbing(Step(s, dts[0]), dts[1..]);
    }
  }

  /** Ticks preserve the clamps of `Init`. */
  lemma StepWellFormed(s: ArcState, dt: real)
    requires WellFormed(s)
    ensures WellFormed(Step(s, dt))
  {
  }

  /** The radius the track gives, or 3 when the arc has no track. */
  function BaseRadius(s: ArcState): (r: real)
    ensures s.track.None? ==> r == 3.0
    ensures (s.track.None? || s.track.value >= 0.0) ==> r >= 0.0
  {
    match s.track
    case Some(r) => r
    case None => 3.0
  }

  /** The cubic ease `3t^2 - 2t^3` (`SmoothStep` in the arc's radius formula). */
  function SmoothStep(t: real): (e: real)
    requires 0.0 <= t <= 1.0
    ensures 0.0 <= e <= 1.0
  {
    SmoothStepBounds(t);
    t * t * (3.0 - 2.0 * t)
  }

  lemma SmoothStepBounds(t: real)
    requires 0.0 <= t <= 1.0
    ensures 0.0 <= t * t * (3.0 - 2.0 * t) <= 1.0
  {
    var u := t * t;
    MulMonotone(t, 0.0, t);
    MulMonotone(u, 0.0, 3.0 - 2.0 * t);
    var v := (1.0 - t) * (1.0 - t);
    MulMonotone(1.0 - t, 0.0, 1.0 - t);
    MulMonotone(v, 0.0, 1.0 + 2.0 * t);
    assert 1.0 - u * (3.0 - 2.0 * t) == v * (1.0 + 2.0 * t);
  }

  /**
   * `CurrentRadius`: the telegraph ring outside the track, the eased approach
   * during Travelling, the track radius in Stick, and in Fading either the
   * track radius or the radius captured by a forced fade.
   */
  function Radius(s: ArcState): (r: real)
    requires s.travelTime > 0.0
    ensures s.phase == Stick ==> r == BaseRadius(s)
  {
    var baseR := BaseRadius(s);
    match s.phase
    case Telegraph => baseR * s.telegraphOffsetScale
    case Travelling =>
      var t := Clamp01(s.timer / s.travelTime);
      baseR * Lerp(s.startRadiusScale, 1.0, SmoothStep(t))
    case Fading => if s.forcedFade then s.fadeStartRadius else baseR
    case _ => baseR
  }

  /** While travelling, the arc lies between the track and its start ring. */
  lemma TravellingRadiusBounds(s: ArcState)
    requires WellFormed(s) && s.phase == Travelling
    ensures BaseRadius(s) <= Radius(s) <= BaseRadius(s) * s.startRadiusScale
  {
    var baseR := BaseRadius(s);
    var scale := Lerp(s.startRadiusScale, 1.0, SmoothStep(Clamp01(s.timer / s.travelTime)));
    assert 1.0 <= scale <= s.startRadiusScale;
    MulMonotone(baseR, 1.0, scale);
    MulMonotone(baseR, scale, s.startRadiusScale);
  }

  /** Outside Travelling the radius is one of the fixed rings. */
  lemma RadiusByPhase(s: ArcState)
    requires s.travelTime > 0.0
    ensures s.phase == Telegraph ==> Radius(s) == BaseRadius(s) * s.telegraphOffsetScale
    ensures s.phase == Stick ==> Radius(s) == BaseRadius(s)
    ensures s.phase == Fading && !s.forcedFade ==> Radius(s) == BaseRadius(s)
    ensures s.phase == Fading && s.forcedFade ==> Radius(s) == s.fadeStartRadius
  {
  }

  /**
   * `ForceFade(sec)`: from any phase, Fading with a fresh timer and a fade time
   * of at least 0.01 s, holding the radius the arc had at that moment.
   */
  function ForceFaded(s: ArcState, sec: real): (r: ArcState)
    requires s.travelTime > 0.0
    ensures SameShape(s, r)
    ensures r.phase == Fading && r.timer == 0.0 && r.forcedFade
    ensures r.fadeTime == Max(0.01, sec) && r.fadeTime >= 0.01
    ensures Radius(r) == Radius(s)
  {
    var rNow := Radius(s);
    s.(forcedFade := true, fadeStartRadius := rNow, phase := Fading, fadeTime := Max(0.01, sec), timer := 0.0)
  }

  /** A forced fade ends the arc after the new fade time, like a natural one. */
  lemma ForceFadedThenDies(s: ArcState, sec: real, dt: real)
    requires s.travelTime > 0.0 && dt >= Max(0.01, sec)
    ensures Step(ForceFaded(s, sec), dt).phase == Dead
  {
  }

  /** How far, in radians, the query angle is from the arc's centre. */
  function Distance(s: ArcState, angleRad: real): (d: real)
    ensures 0.0 <= d <= Pi
  {
    Abs(DeltaAngleRad(angleRad, s.centerAngleRad))
  }

  /** `HitsExactPhaseAware`: an arc dangerous in `mode` covering the query angle. */
  predicate HitsExactAt(s: ArcState, angleRad: real, mode: ArcHitMode)
    ensures HitsExactAt(s, angleRad, mode) ==> s.phase != Dead && s.halfWidthRad >= 0.0
  {
    DangerousIn(s.phase, mode) && Distance(s, angleRad) <= s.halfWidthRad
  }

  /** `HitsPhaseAware`: an arc dangerous in `mode` covering the query angle, widened by `padRad`. */
  predicate HitsAt(s: ArcState, angleRad: real, padRad: real, mode: ArcHitMode)
    ensures HitsAt(s, angleRad, padRad, mode) ==> s.phase != Dead
    ensures padRad >= 0.0 && HitsExactAt(s, angleRad, mode) ==> HitsAt(s, angleRad, padRad, mode)
  {
    DangerousIn(s.phase, mode) && Distance(s, angleRad) <= s.halfWidthRad + padRad
  }

  /** An arc that is not dangerous in `mode` is never hit, exactly or with any pad. */
  lemma HitsNeedDanger(s: ArcState, angleRad: real, padRad: real, mode: ArcHitMode)
    ensures HitsExactAt(s, angleRad, mode) ==> DangerousIn(s.phase, mode)
    ensures HitsAt(s, angleRad, padRad, mode) ==> DangerousIn(s.phase, mode)
    ensures s.phase == Dead ==> !HitsExactAt(s, angleRad, mode) && !HitsAt(s, angleRad, padRad, mode)
  {
  }

  /** An exact hit is also a padded hit for any pad that is not negative, and the pad only widens. */
  lemma ExactHitImpliesPadded(s: ArcState, angleRad: real, pad1: real, pad2: real, mode: ArcHitMode)
    requires 0.0 <= pad1 <= pad2
    ensures HitsExactAt(s, angleRad, mode) ==> HitsAt(s, angleRad, pad1, mode)
    ensures HitsAt(s, angleRad, pad1, mode) ==> HitsAt(s, angleRad, pad2, mode)
    ensures HitsExactAt(s, angleRad, mode) <==> HitsAt(s, angleRad, 0.0, mode)
  {
  }

  /**
   * For an arc narrower than a half turn, an exact hit means the query angle
   * lies on the arc: within `halfWidthRad` of the centre in one direction or
   * the other.
   */
  lemma ExactHitIsOnArc(s: ArcState, angleRad: real, mode: ArcHitMode)
    requires 0.0 <= s.halfWidthRad < Pi
    ensures HitsExactAt(s, angleRad, mode) <==>
            DangerousIn(s.phase, mode) &&
            exists o :: -s.halfWidthRad <= o <= s.halfWidthRad && Rotate(s.centerAngleRad, o) == WrapRad(angleRad)
  {
    WithinArc(angleRad, s.centerAngleRad, s.halfWidthRad);
  }

  /**
   * `EdgeDistanceDeg`: degrees from the query angle to the nearer end of the
   * arc, 0 when the angle is on the arc.
   */
  function EdgeDistanceDeg(s: ArcState, angleRad: real): (e: real)
    ensures e >= 0.0
    ensures e == 0.0 <==> Distance(s, angleRad) <= s.halfWidthRad
    ensures e > 0.0 ==> e * Deg2Rad == Distance(s, angleRad) - s.halfWidthRad
  {
    var d := Distance(s, angleRad) - s.halfWidthRad;
    assert Rad2Deg > 0.0 && Rad2Deg * Deg2Rad == 1.0;
    Max(0.0, d) * Rad2Deg
  }

  class ObstacleArc {
    var track: Option<real>
    var centerAngleRad: real
    var halfWidthRad: real
    var telegraphTime: real
    var travelTime: real
    var stickTime: real
    var fadeTime: real
    var startRadiusScale: real
    var telegraphOffsetScale: real
    var phase: Phase
    var timer: real
    var forcedFade: bool
    var fadeStartRadius: real

    /** The arc as a value. */
    function State(): ArcState
      reads this
    {
      ArcState(track, centerAngleRad, halfWidthRad, telegraphTime, travelTime, stickTime, fadeTime,
               startRadiusScale, telegraphOffsetScale, phase, timer, forcedFade, fadeStartRadius)
    }

    ghost predicate Valid()
      reads this
    {
      WellFormed(State())
    }

    /** `Init`, given the track radius (if there is a track) and the stage's shape and timing. */
    constructor Init(track: Option<real>, centerAngleRad: real, arcSizeDeg: real,
                     telegraph: real, travel: real, stick: real, fade: real,
                     startRadiusScale: real, telegraphOffsetScale: real)
      requires track.Some? ==> track.value >= 0.0
      ensures Valid()
      ensures State() == Initial(track, centerAngleRad, arcSizeDeg, telegraph, travel, stick, fade,
                                 startRadiusScale, telegraphOffsetScale)
    {
      this.track := track;
      this.centerAngleRad := centerAngleRad;
      this.halfWidthRad := Deg2Rad * Abs(arcSizeDeg) * 0.5;
      this.telegraphTime := Max(0.05, telegraph);
      this.travelTime := Max(0.01, travel);
      this.stickTime := Max(0.0, stick);
      this.fadeTime := Max(0.01, fade);
      this.startRadiusScale := Max(1.25, startRadiusScale);
      this.telegraphOffsetScale := Max(1.10, telegraphOffsetScale);
      phase := Telegraph;
      timer := 0.0;
      forcedFade := false;
      fadeStartRadius := 0.0;
    }

    /** `IsAlive`: any phase but Dead, which is exactly being dangerous in the widest mode. */
    predicate IsAlive()
      reads this
      ensures IsAlive() <==> IsDangerous(AllPhasesIncludingFade)
    {
      phase != Dead
    }

    /** `IsStick`: the arc sits on the track, so it is alive and dangerous even in the narrowest mode. */
    predicate IsStick()
      reads this
      ensures IsStick() ==> IsAlive() && IsDangerous(StickOnly)
    {
      phase == Stick
    }

    /** One frame of the phase machine. */
    method Tick(dt: real)
      requires Valid()
      modifies this
      ensures Valid()
      ensures State() == Step(old(State()), dt)
    {
      if phase == Dead {
        return;
      }
      timer := timer + dt;
      match phase {
        case Telegraph =>
          if timer >= telegraphTime { phase := Travelling; timer := 0.0; forcedFade := false; }
        case Travelling =>
          if timer >= travelTime { phase := Stick; timer := 0.0; forcedFade := false; }
        case Stick =>
          if timer >= stickTime { phase := Fading; timer := 0.0; forcedFade := false; }
        case Fading =>
          if timer >= fadeTime { phase := Dead; }
      }
    }

    /** `ForceFade(sec)`, capturing the current radius first. */
    method ForceFade(sec: real)
      requires Valid()
      modifies this
      ensures Valid()
      ensures State() == ForceFaded(old(State()), sec)
    {
      var rNow := CurrentRadius();
      forcedFade := true;
      fadeStartRadius := rNow;
      phase := Fading;
      fadeTime := Max(0.01, sec);
      timer := 0.0;
    }

    /**
     * `CurrentRadius`: on the track in Stick, and between the track and the
     * start ring while travelling.
     */
    function CurrentRadius(): (r: real)
      requires Valid()
      reads this
      ensures phase == Stick ==> r == BaseRadius(State())
      ensures phase == Travelling ==> BaseRadius(State()) <= r <= BaseRadius(State()) * startRadiusScale
    {
      if phase == Travelling then TravellingRadiusBounds(State()); Radius(State())
      else Radius(State())
    }

    /** `IsDangerous(mode)`: the hit-mode table at the current phase. */
    predicate IsDangerous(mode: ArcHitMode)
      reads this
      ensures IsDangerous(mode) ==> phase != Dead
      ensures phase == Stick ==> IsDangerous(mode)
    {
      DangerousIn(phase, mode)
    }

    /** `HitsExact`: a Stick arc covering the query angle. */
    predicate HitsExact(playerAngleRad: real)
      reads this
      ensures HitsExact(playerAngleRad) ==> IsDangerous(StickOnly)
    {
      phase == Stick && Distance(State(), playerAngleRad) <= halfWidthRad
    }

    /** `Hits`: a Stick arc covering the query angle, widened by `padRad`. */
    predicate Hits(playerAngleRad: real, padRad: real)
      reads this
      ensures Hits(playerAngleRad, padRad) ==> IsDangerous(StickOnly)
      ensures padRad >= 0.0 && HitsExact(playerAngleRad) ==> Hits(playerAngleRad, padRad)
    {
      phase == Stick && Distance(State(), playerAngleRad) <= halfWidthRad + padRad
    }

    /** `HitsExactPhaseAware`: an arc dangerous in `mode` covering the query angle. */
    predicate HitsExactPhaseAware(playerAngleRad: real, mode: ArcHitMode)
      reads this
      ensures HitsExactPhaseAware(playerAngleRad, mode) ==> IsDangerous(mode)
    {
      HitsExactAt(State(), playerAngleRad, mode)
    }

    /** `HitsPhaseAware`: the same test with the angle widened by `padRad`. */
    predicate HitsPhaseAware(playerAngleRad: real, padRad: real, mode: ArcHitMode)
      reads this
      ensures HitsPhaseAware(playerAngleRad, padRad, mode) ==> IsDangerous(mode)
      ensures padRad >= 0.0 && HitsExactPhaseAware(playerAngleRad, mode) ==> HitsPhaseAware(playerAngleRad, padRad, mode)
    {
      HitsAt(State(), playerAngleRad, padRad, mode)
    }

    /** The original Stick-only tests are the phase-aware tests under StickOnly. */
    lemma StickOnlyTestsAgree(playerAngleRad: real, padRad: real)
      ensures HitsExact(playerAngleRad) == HitsExactPhaseAware(playerAngleRad, StickOnly)
      ensures Hits(playerAngleRad, padRad) == HitsPhaseAware(playerAngleRad, padRad, StickOnly)
    {
    }
  }
}
