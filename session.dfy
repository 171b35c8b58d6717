/**
 * `GameManager`: one play session.  It runs the Title / Countdown / Playing /
 * Paused / GameOver state machine, buffers up to two flip presses, drives the
 * player, the spawner and the orb each frame, tests the player's sweep for a
 * hit, scores grazes and orb pickups (with the chain multiplier), and places
 * new orbs in the widest free gap.
 *
 * Input polling, UI text, audio, camera shake, ads, the leaderboard, saving the
 * best score and `Time.timeScale` are left out: the session is driven by
 * calling its operations, the saved best score is a constructor parameter, and
 * the random draws are parameters.
 */
module Session {
  import opened Mathf
  import opened Angles
  import opened FlipOrbitConfig
  import opened Players
  import opened Orbs
  import opened Arcs
  import opened Spawning
  import opened Gaps

  datatype GameState = Title | Playing | Paused | GameOver | Countdown

  /** One graze point is scored for each whole 0.1 s spent grazing. */
  const GrazePointSec: real := 0.1

  /** `float.MaxValue`, the "no Stick arc" edge distance. */
  const FloatMax: real := 340282346638528859811704183484516925440.0

  /** `PauseToggle`: Playing and Paused swap; every other state stays. */
  function Toggled(s: GameState): (r: GameState)
    ensures s == Playing <==> r == Paused
    ensures s == Paused <==> r == Playing
  {
    match s
    case Playing => Paused
    case Paused => Playing
    case _ => s
  }

  /** Pausing twice gets back to where the game was. */
  lemma ToggledTwice(s: GameState)
    ensures Toggled(Toggled(s)) == s
  {
  }

  /**
   * The signed sweep the hit test walks as written: `DeltaAngleRad(currAngle, prevAngle)`,
   * the turn that leads from the new angle back to the old one.
   */
  function SweepDelta(prevAngle: real, currAngle: real): (d: real)
    ensures -Pi < d <= Pi
    ensures WrapRad(currAngle + d) == WrapRad(prevAngle)
  {
    DeltaAngleRad(currAngle, prevAngle)
  }

  /**
   * The sweep the hit test evidently means: `DeltaAngleRad(prevAngle, currAngle)`,
   * the turn that leads from the old angle to the new one.
   */
  function ForwardDelta(prevAngle: real, currAngle: real): (d: real)
    ensures -Pi < d <= Pi
    ensures WrapRad(prevAngle + d) == WrapRad(currAngle)
  {
    DeltaAngleRad(prevAngle, currAngle)
  }

  /**
   * The number of samples along the sweep: the configured count (at least 1),
   * one more beyond 45 degrees of sweep and two more beyond 90, clamped to 8
   * in those two cases.
   */
  function SubstepCount(collisionSubsteps: int, delta: real): (n: int)
    ensures n >= 1
    ensures Abs(delta) * Rad2Deg > 90.0 ==> n == MinInt(8, MaxInt(1, collisionSubsteps) + 2)
    ensures 45.0 < Abs(delta) * Rad2Deg <= 90.0 ==> n == MinInt(8, MaxInt(1, collisionSubsteps) + 1)
    ensures Abs(delta) * Rad2Deg <= 45.0 ==> n == MaxInt(1, collisionSubsteps)
    ensures Abs(delta) * Rad2Deg > 45.0 ==> n <= 8
  {
    var steps := MaxInt(1, collisionSubsteps);
    var deg := Abs(delta) * Rad2Deg;
    if deg > 90.0 then ClampInt(steps + 2, 1, 8)
    else if deg > 45.0 then ClampInt(steps + 1, 1, 8)
    else steps
  }

  /** Within the editor's range of 1 to 8, a longer sweep never gets fewer samples. */
  lemma SubstepCountMonotone(collisionSubsteps: int, d1: real, d2: real)
    requires 1 <= collisionSubsteps <= 8
    requires Abs(d1) <= Abs(d2)
    ensures collisionSubsteps <= SubstepCount(collisionSubsteps, d1) <= SubstepCount(collisionSubsteps, d2)
  {
    MulMonotone(Rad2Deg, Abs(d1), Abs(d2));
    assert Abs(d1) * Rad2Deg <= Abs(d2) * Rad2Deg;
  }

  /**
   * The extra pad for fast sweeps, in degrees: none in exact mode; otherwise
   * `highSpeedExtraPadDeg` scaled by how far the sweep speed is past 180
   * degrees per second (reaching the whole pad at 360).
   */
  function ExtraPadDeg(exact: bool, highSpeedExtraPadDeg: real, delta: real, dt: real): (e: real)
    ensures exact ==> e == 0.0
    ensures highSpeedExtraPadDeg >= 0.0 ==> e >= 0.0
  {
    var speedDegPerSec := if dt > 0.000001 then Abs(delta) * Rad2Deg / dt else 0.0;
    var spd01 := Clamp01((speedDegPerSec - 180.0) / 180.0);
    if !exact then highSpeedExtraPadDeg * spd01 else 0.0
  }

  /** The extra pad is 0 in exact mode and between 0 and the configured pad otherwise. */
  lemma ExtraPadBounds(exact: bool, highSpeedExtraPadDeg: real, delta: real, dt: real)
    requires highSpeedExtraPadDeg >= 0.0
    ensures exact ==> ExtraPadDeg(exact, highSpeedExtraPadDeg, delta, dt) == 0.0
    ensures 0.0 <= ExtraPadDeg(exact, highSpeedExtraPadDeg, delta, dt) <= highSpeedExtraPadDeg
  {
    var speedDegPerSec := if dt > 0.000001 then Abs(delta) * Rad2Deg / dt else 0.0;
    MulMonotone(highSpeedExtraPadDeg, Clamp01((speedDegPerSec - 180.0) / 180.0), 1.0);
  }

  /** Sample `i` of `steps` along the sweep from `prevAngle`. */
  function Sample(prevAngle: real, delta: real, i: int, steps: int): (a: real)
    requires steps >= 1
    ensures 0.0 <= a < TwoPi
  {
    WrapRad(prevAngle + delta * (i as real / steps as real))
  }

  /** The last sample lies at the full sweep. */
  lemma LastSampleIsFullSweep(prevAngle: real, delta: real, steps: int)
    requires steps >= 1
    ensures Sample(prevAngle, delta, steps, steps) == WrapRad(prevAngle + delta)
  {
    assert steps as real / steps as real == 1.0;
  }

  /**
   * Because the sweep is `DeltaAngleRad(currAngle, prevAngle)`, that is
   * `prevAngle - currAngle` on the circle, the last sample is not the
   * player's new position but its mirror image through the old one,
   * `2 prevAngle - currAngle`: the sweep runs away from where the player went.
   */
  lemma LastSampleMirrorsMove(prevAngle: real, currAngle: real, steps: int)
    requires steps >= 1
    ensures Sample(prevAngle, SweepDelta(prevAngle, currAngle), steps, steps) == WrapRad(2.0 * prevAngle - currAngle)
  {
    var d := SweepDelta(prevAngle, currAngle);
    LastSampleIsFullSweep(prevAngle, d, steps);
    WrapRadShift(currAngle + d, prevAngle, prevAngle - currAngle);
    assert currAngle + d + (prevAngle - currAngle) == prevAngle + d;
    assert prevAngle + (prevAngle - currAngle) == 2.0 * prevAngle - currAngle;
  }

  /** The forward sweep's last sample is the player's new position. */
  lemma LastSampleIsPosition(prevAngle: real, currAngle: real, steps: int)
    requires steps >= 1
    ensures Sample(prevAngle, ForwardDelta(prevAngle, currAngle), steps, steps) == WrapRad(currAngle)
  {
    LastSampleIsFullSweep(prevAngle, ForwardDelta(prevAngle, currAngle), steps);
  }

  /**
   * The sweep as written ends on the player's new position only when the
   * player did not move at all or moved exactly half a turn: for every other
   * move (from angle 0 to angle 1, say) the new position is never tested.
   */
  lemma AsWrittenMissesNewPosition(prevAngle: real, currAngle: real, steps: int)
    requires steps >= 1
    ensures Sample(prevAngle, SweepDelta(prevAngle, currAngle), steps, steps) == WrapRad(currAngle) ==>
              WrapRad(currAngle) == WrapRad(prevAngle) || Abs(ForwardDelta(prevAngle, currAngle)) == Pi
  {
    var d := ForwardDelta(prevAngle, currAngle);
    var last := Sample(prevAngle, SweepDelta(prevAngle, currAngle), steps, steps);
    LastSampleMirrorsMove(prevAngle, currAngle, steps);
    WrapRadShift(prevAngle + d, currAngle, prevAngle - currAngle - d);
    assert prevAngle + d + (prevAngle - currAngle - d) == 2.0 * prevAngle - currAngle;
    assert currAngle + (prevAngle - currAngle - d) == prevAngle + -d;
    if last == WrapRad(currAngle) && Abs(d) < Pi {
      DeltaAngleRadUnique(prevAngle, currAngle, -d);
      assert prevAngle + d == prevAngle;
    }
  }

  /** Whether one arc registers a hit at `angle` under the configured test. */
  predicate ArcHit(cfg: Config, a: ArcState, angle: real, padRad: real)
    ensures ArcHit(cfg, a, angle, padRad) ==> DangerousIn(a.phase, cfg.arcHitMode)
    ensures a.phase == Dead ==> !ArcHit(cfg, a, angle, padRad)
  {
    if cfg.useExactArcHit then HitsExactAt(a, angle, cfg.arcHitMode)
    else HitsAt(a, angle, padRad, cfg.arcHitMode)
  }

  /**
   * The smallest edge distance, in degrees, from `angle` to a Stick arc, or
   * `FloatMax` when there is none, computed over the arcs in order.
   */
  function MinStickEdge(arcs: seq<ArcState>, angle: real): (m: real)
    ensures 0.0 <= m <= FloatMax
  {
    if arcs == [] then FloatMax
    else
      var m := MinStickEdge(arcs[..|arcs| - 1], angle);
      var a := arcs[|arcs| - 1];
      if a.phase == Stick && EdgeDistanceDeg(a, angle) < m then EdgeDistanceDeg(a, angle) else m
  }

  /**
   * `MinStickEdge` is at most `FloatMax` and at most the edge distance of every
   * Stick arc, and it is either `FloatMax` or the edge distance of one of them.
   */
  lemma {:induction false} MinStickEdgeIsMinimum(arcs: seq<ArcState>, angle: real)
    ensures MinStickEdge(arcs, angle) <= FloatMax
    ensures forall j :: 0 <= j < |arcs| && arcs[j].phase == Stick ==>
              MinStickEdge(arcs, angle) <= EdgeDistanceDeg(arcs[j], angle)
    ensures MinStickEdge(arcs, angle) == FloatMax ||
            exists j :: 0 <= j < |arcs| && arcs[j].phase == Stick && MinStickEdge(arcs, angle) == EdgeDistanceDeg(arcs[j], angle)
    decreases |arcs|
  {
    if arcs != [] {
      var init := arcs[..|arcs| - 1];
      MinStickEdgeIsMinimum(init, angle);
      forall j | 0 <= j < |init|
        ensures init[j] == arcs[j]
      {
      }
    }
  }

  /** The chain settings under which the multiplier stays in [1, chainMax]. */
  ghost predicate ChainConfig(cfg: Config)
  {
    cfg.chainMax >= 1.0 && cfg.chainStep >= 0.0
  }

  /** The points one pickup is worth: the orb's score times the multiplier, rounded. */
  function OrbGain(orbScore: int, multiplier: real): (g: int)
    ensures orbScore as real * multiplier - 0.5 <= g as real <= orbScore as real * multiplier + 0.5
  {
    RoundToInt(orbScore as real * multiplier)
  }

  /**
   * With a non-negative orb score and a multiplier of at least 1, a pickup is
   * worth at least the orb's score.
   */
  lemma OrbGainAtLeastScore(orbScore: int, multiplier: real)
    requires orbScore >= 0 && 1.0 <= multiplier
    ensures orbScore <= OrbGain(orbScore, multiplier)
  {
    RoundScaledAtLeast(orbScore, multiplier);
  }

  /** A larger multiplier never makes a pickup worth less. */
  lemma OrbGainMonotone(orbScore: int, m1: real, m2: real)
    requires orbScore >= 0 && 0.0 <= m1 <= m2
    ensures OrbGain(orbScore, m1) <= OrbGain(orbScore, m2)
  {
    RoundScaledMonotone(orbScore, m1, m2);
  }

  /**
   * The whole points' worth of graze time in `acc`: the number of times the
   * loop of `DoGraze` takes 0.1 s off the accumulator.  What is left is less
   * than 0.1 s.
   */
  function GrazePoints(acc: real): (n: int)
    ensures 0.0 <= acc - n as real * GrazePointSec < GrazePointSec
    ensures acc >= 0.0 ==> n >= 0
  {
    (acc * 10.0).Floor
  }

  /** Only one count of whole points leaves less than 0.1 s behind. */
  lemma GrazePointsUnique(acc: real, n: int)
    requires 0.0 <= acc - n as real * GrazePointSec < GrazePointSec
    ensures n == GrazePoints(acc)
  {
    var m := GrazePoints(acc);
    assert (n - m) as real * GrazePointSec < GrazePointSec;
    assert (m - n) as real * GrazePointSec < GrazePointSec;
  }

  /**
   * The flip buffer over one frame, on values: a running window counts down
   * by `dt`; if it runs out the pending flips are dropped and the window
   * stays at 0; then one pending flip, if any is left, is used.  Returns the
   * new window, the new pending count and whether a flip was used: one is
   * used exactly when one was pending and the window did not run out.
   */
  function BufferStep(window: real, pending: int, dt: real): (r: (real, int, bool))
    ensures r.2 <==> pending > 0 && !(0.0 < window < dt)
    ensures r.2 ==> r.1 == pending - 1
    ensures !r.2 ==> r.1 == 0
    ensures window >= 0.0 && dt >= 0.0 ==> 0.0 <= r.0 <= window
  {
    var expired := window > 0.0 && window - dt < 0.0;
    var w := if expired then 0.0 else if window > 0.0 then window - dt else window;
    var p := if expired then 0 else pending;
    (w, MaxInt(0, p - 1), p > 0)
  }

  /** `orbPickupPadRad`, fixed from the configuration at start-up. */
  function OrbPickupPadRad(cfg: Config): (r: real)
    ensures cfg.orbPickupPadDeg >= 0.0 ==> r >= 0.0
    ensures r * Rad2Deg == cfg.orbPickupPadDeg
  {
    Deg2Rad * cfg.orbPickupPadDeg
  }

  class GameManager {
    const config: Config
    const pow: (real, real) -> real
    const track: Option<real>
    const player: PlayerController
    const spawner: ObstacleSpawner
    const orb: OrbManager
    /** Whether a countdown display exists; without one the countdown is skipped. */
    const hasCountdownText: bool
    const countdownDuration: real
    const flipBufferWindow: real
    const collisionSubsteps: int
    const highSpeedExtraPadDeg: real

    var state: GameState
    var score: int
    var multiplier: real
    var bestScore: int
    var countdownTimer: real
    var flipBufferTimer: real
    var pendingFlipCount: int
    var grazeAccum: real
    var chainNoPickupTimer: real

    /**
     * The collaborators are wired to this configuration, power function and
     * track and are themselves valid, the orb lives for the configured time;
     * at most two flips are pending; the graze accumulator
     * holds less than one point's worth of time; and with sensible chain
     * settings the multiplier is between 1 and `chainMax`.
     */
    ghost predicate Valid()
      reads this, player, spawner, orb
    {
      && player.Valid() && spawner.Valid() && orb.Valid()
      && spawner.cfg == Some(config) && spawner.track == track && spawner.pow == pow
      && player.hasTrack == track.Some?
      && orb.lifetimeSec == config.orbLifetimeSec
      && 0 <= pendingFlipCount <= 2
      && 0.0 <= grazeAccum < GrazePointSec
      && (ChainConfig(config) ==> 1.0 <= multiplier <= config.chainMax)
    }

    /**
     * `Start`: the player, spawner and orb are wired to the configuration and
     * the track, the saved best score is loaded and the game shows the title.
     */
    constructor (config: Config, pow: (real, real) -> real, track: Option<real>,
                 hasCountdownText: bool, countdownDuration: real, flipBufferWindow: real,
                 collisionSubsteps: int, highSpeedExtraPadDeg: real, savedBest: int)
      requires track.Some? ==> track.value >= 0.0
      ensures Valid()
      ensures state == Title && score == 0 && multiplier == 1.0 && bestScore == savedBest
      ensures pendingFlipCount == 0 && grazeAccum == 0.0 && chainNoPickupTimer == 0.0
      ensures this.config == config && this.track == track
      ensures fresh(player) && fresh(spawner) && fresh(orb)
      ensures !orb.isAlive && spawner.arcs == []
    {
      this.config := config;
      this.pow := pow;
      this.track := track;
      this.hasCountdownText := hasCountdownText;
      this.countdownDuration := countdownDuration;
      this.flipBufferWindow := flipBufferWindow;
      this.collisionSubsteps := collisionSubsteps;
      this.highSpeedExtraPadDeg := highSpeedExtraPadDeg;
      player := new PlayerController(track.Some?);
      spawner := new ObstacleSpawner(Some(config), track, pow);
      orb := new OrbManager(config.orbLifetimeSec);
      state := Title;
      score := 0;
      multiplier := 1.0;
      bestScore := savedBest;
      countdownTimer := 0.0;
      flipBufferTimer := 0.0;
      pendingFlipCount := 0;
      grazeAccum := 0.0;
      chainNoPickupTimer := 0.0;
    }

    /** A flip press: one more pending flip, at most two, and the window re-armed. */
    method QueueFlip()
      requires Valid()
      modifies this`pendingFlipCount, this`flipBufferTimer
      ensures Valid()
      ensures pendingFlipCount == MinInt(old(pendingFlipCount) + 1, 2)
      ensures pendingFlipCount >= 1
      ensures flipBufferTimer == flipBufferWindow
    {
      pendingFlipCount := MinInt(pendingFlipCount + 1, 2);
      flipBufferTimer := flipBufferWindow;
    }

    /** Uses one pending flip, if there is one, to reverse the player. */
    method ConsumeFlipBuffered()
      requires Valid()
      modifies this`pendingFlipCount, player`dir
      ensures Valid()
      ensures old(pendingFlipCount) > 0 ==> pendingFlipCount == old(pendingFlipCount) - 1 && player.dir == -old(player.dir)
      ensures old(pendingFlipCount) == 0 ==> pendingFlipCount == 0 && player.dir == old(player.dir)
    {
      if pendingFlipCount > 0 {
        player.Flip();
        pendingFlipCount := pendingFlipCount - 1;
      }
    }

    /** Sets the player's speed from the current score. */
    method ApplySpeedFromScore()
      requires Valid()
      modifies player`angularSpeedDegPerSec
      ensures Valid()
      ensures player.angularSpeedDegPerSec == Max(0.0, CalcAngularSpeedDegPerSec(config, pow, score))
    {
      var w := CalcAngularSpeedDegPerSec(config, pow, score);
      player.SetAngularSpeed(w);
    }

    /**
     * The part of `StartGame` that resets the collaborators: the player back at
     * angle 0 going forwards, no arcs and no orb.
     */
    method ResetRound()
      requires Valid()
      modifies player, spawner, orb
      ensures Valid()
      ensures player.angleRad == 0.0 && player.dir == 1
      ensures player.angularSpeedDegPerSec == old(player.angularSpeedDegPerSec)
      ensures spawner.arcs == [] && spawner.elapsed == 0.0 && spawner.spawnTimer == 0.0
      ensures spawner.currentStageIndex == 0 && spawner.difficultyT == old(spawner.difficultyT)
      ensures !orb.isAlive && !orb.TimeoutPending() && orb.timer == 0.0
      ensures orb.angleRad == old(orb.angleRad) && orb.lifetimeSec == old(orb.lifetimeSec)
    {
      player.ResetPlayer(0.0);
      spawner.ResetAll();
      orb.ResetAll();
    }

    /** The part of `StartGame` that clears the score, chain, graze and flip state. */
    method ResetScoring()
      requires Valid()
      modifies this`score, this`multiplier, this`chainNoPickupTimer, this`grazeAccum,
               this`pendingFlipCount, this`flipBufferTimer
      ensures Valid()
      ensures score == 0 && multiplier == 1.0 && chainNoPickupTimer == 0.0 && grazeAccum == 0.0
      ensures pendingFlipCount == 0 && flipBufferTimer == 0.0
    {
      score := 0;
      multiplier := 1.0;
      chainNoPickupTimer := 0.0;
      grazeAccum := 0.0;
      pendingFlipCount := 0;
      flipBufferTimer := 0.0;
    }

    /**
     * `StartGame`: score, multiplier, chain, graze and flip state reset, the
     * player back at angle 0 going forwards, no arcs, no orb, the speed set for
     * score 0, and a countdown of at least one second (none without a display).
     */
    method StartGame()
      requires Valid()
      modifies this, player, spawner, orb
      ensures Valid()
      ensures state == Countdown
      ensures score == 0 && multiplier == 1.0 && chainNoPickupTimer == 0.0 && grazeAccum == 0.0
      ensures pendingFlipCount == 0 && flipBufferTimer == 0.0
      ensures player.angleRad == 0.0 && player.dir == 1
      ensures player.angularSpeedDegPerSec == Max(0.0, CalcAngularSpeedDegPerSec(config, pow, 0))
      ensures spawner.arcs == [] && spawner.elapsed == 0.0 && spawner.spawnTimer == 0.0
      ensures spawner.currentStageIndex == 0 && spawner.difficultyT == old(spawner.difficultyT)
      ensures !orb.isAlive && !orb.TimeoutPending() && orb.timer == 0.0
      ensures orb.angleRad == old(orb.angleRad) && orb.lifetimeSec == old(orb.lifetimeSec)
      ensures hasCountdownText ==> countdownTimer == Max(1.0, countdownDuration) && countdownTimer >= 1.0
      ensures !hasCountdownText ==> countdownTimer == 0.0
      ensures bestScore == old(bestScore)
    {
      ResetRound();
      ResetScoring();
      ApplySpeedFromScore();
      if hasCountdownText {
        countdownTimer := Max(1.0, countdownDuration);
      } else {
        countdownTimer := 0.0;
      }
      state := Countdown;
    }

    /** `PauseToggle`. */
    method PauseToggle()
      requires Valid()
      modifies this`state
      ensures Valid()
      ensures state == Toggled(old(state))
    {
      if state == Playing {
        state := Paused;
      } else if state == Paused {
        state := Playing;
      }
    }

    /** `OnMiss` (its score part): game over, and the best score is the larger of the two. */
    method OnMiss()
      requires Valid()
      modifies this`state, this`bestScore
      ensures Valid()
      ensures state == GameOver
      ensures bestScore == MaxInt(old(bestScore), score)
      ensures bestScore >= score && bestScore >= old(bestScore)
    {
      state := GameOver;
      if score > bestScore {
        bestScore := score;
      }
    }

    /**
     * `spawner.ForceFadeAll(forceFadeAllSec)`: every arc still alive starts a
     * forced fade, dead ones are left alone, and the spawner's clock, spawn
     * timer and stage are kept.
     */
    method FadeAllArcs()
      requires Valid()
      modifies spawner
      ensures Valid()
      ensures FadedAll(old(spawner.arcs), spawner.arcs, config.forceFadeAllSec)
      ensures forall i :: 0 <= i < |spawner.arcs| ==> FadingOrDead(spawner.arcs[i])
      ensures SpawnerClockKept(old(spawner.difficultyT), old(spawner.elapsed), old(spawner.spawnTimer),
                               old(spawner.currentStageIndex))
    {
      spawner.ForceFadeAll(config.forceFadeAllSec);
    }

    /**
     * Where `TrySpawnOrb` puts a new orb: the angle `FindWidestGapMidAngle`
     * gives for `arcs` around the player, moved by the jitter draw and wrapped
     * into [0, 2π).
     */
    ghost function OrbPlacement(arcs: seq<ArcState>, playerAngleRad: real, jitterDraw: real): (a: real)
      ensures 0.0 <= a < TwoPi
      ensures arcs == [] ==> a == WrapRad(WrapRad(playerAngleRad + Pi) + jitterDraw)
    {
      WrapRad(WidestGapTarget(arcs, playerAngleRad, config.minSpawnSepFromPlayerDeg * Deg2Rad) + jitterDraw)
    }

    /**
     * `TrySpawnOrb`: a live orb is left alone; otherwise a new one appears at
     * the widest-gap angle moved by the jitter draw (a value of
     * `Random.Range(-jitter, jitter)`), wrapped into [0, 2π).
     */
    method TrySpawnOrb(jitterDraw: real)
      requires Valid()
      modifies orb
      ensures Valid()
      ensures old(orb.isAlive) ==> orb.isAlive && orb.angleRad == old(orb.angleRad) && orb.timer == old(orb.timer)
                                   && orb.TimeoutPending() == old(orb.TimeoutPending())
      ensures !old(orb.isAlive) ==> orb.isAlive && orb.timer == 0.0 && !orb.TimeoutPending()
                                    && 0.0 <= orb.angleRad < TwoPi
      ensures !old(orb.isAlive) ==> orb.angleRad == OrbPlacement(spawner.arcs, player.angleRad, jitterDraw)
      ensures !old(orb.isAlive) && spawner.arcs == [] ==>
                orb.angleRad == WrapRad(WrapRad(player.angleRad + Pi) + jitterDraw)
    {
      if orb.isAlive {
        return;
      }
      var candidate := FindWidestGapMidAngle(spawner.arcs, player.angleRad, config.minSpawnSepFromPlayerDeg * Deg2Rad);
      candidate := candidate + jitterDraw;
      candidate := WrapRad(candidate);
      orb.SpawnAtAngle(candidate);
    }

    /**
     * `TickCountdown`: the countdown runs down; when it reaches 0 the game
     * starts playing and an orb is placed.
     */
    method TickCountdown(dt: real, jitterDraw: real)
      requires Valid()
      modifies this`countdownTimer, this`state, orb
      ensures Valid()
      ensures countdownTimer == old(countdownTimer) - dt
      ensures countdownTimer > 0.0 ==> state == old(state) && orb.isAlive == old(orb.isAlive)
      ensures countdownTimer > 0.0 ==> orb.angleRad == old(orb.angleRad) && orb.timer == old(orb.timer)
                                       && orb.TimeoutPending() == old(orb.TimeoutPending())
      ensures countdownTimer <= 0.0 ==> state == Playing && orb.isAlive
      ensures countdownTimer <= 0.0 && old(orb.isAlive) ==>
                orb.angleRad == old(orb.angleRad) && orb.timer == old(orb.timer)
                && orb.TimeoutPending() == old(orb.TimeoutPending())
      ensures countdownTimer <= 0.0 && !old(orb.isAlive) ==>
                orb.timer == 0.0 && !orb.TimeoutPending()
                && orb.angleRad == OrbPlacement(spawner.arcs, player.angleRad, jitterDraw)
    {
      countdownTimer := countdownTimer - dt;
      if countdownTimer <= 0.0 {
        state := Playing;
        TrySpawnOrb(jitterDraw);
      }
    }

    /** The spawner's difficulty, clock, spawn timer and stage are the given ones. */
    ghost predicate SpawnerClockKept(difficultyT: real, elapsed: real, spawnTimer: real, stage: int)
      reads spawner
    {
      && spawner.difficultyT == difficultyT && spawner.elapsed == elapsed
      && spawner.spawnTimer == spawnTimer && spawner.currentStageIndex == stage
    }

    /** Some arc of `arcs` registers a hit at some sample of the sweep `delta` from `prevAngle`. */
    ghost predicate SweptHit(arcs: seq<ArcState>, prevAngle: real, delta: real, dt: real)
    {
      var steps := SubstepCount(collisionSubsteps, delta);
      var padRad := HitPadRad(delta, dt);
      exists i, j :: 1 <= i <= steps && 0 <= j < |arcs| &&
        ArcHit(config, arcs[j], Sample(prevAngle, delta, i, steps), padRad)
    }

    /** The hit pad in radians: the configured pad plus the high-speed extra. */
    function HitPadRad(delta: real, dt: real): (r: real)
      ensures config.useExactArcHit ==> r == Deg2Rad * config.hitPadDeg
      ensures highSpeedExtraPadDeg >= 0.0 ==>
                Deg2Rad * config.hitPadDeg <= r <= Deg2Rad * (config.hitPadDeg + highSpeedExtraPadDeg)
    {
      var e := ExtraPadDeg(config.useExactArcHit, highSpeedExtraPadDeg, delta, dt);
      assert highSpeedExtraPadDeg >= 0.0 ==> 0.0 <= e <= highSpeedExtraPadDeg by {
        if highSpeedExtraPadDeg >= 0.0 {
          ExtraPadBounds(config.useExactArcHit, highSpeedExtraPadDeg, delta, dt);
        }
      }
      assert Deg2Rad > 0.0;
      Deg2Rad * (config.hitPadDeg + e)
    }

    /** Some arc of `arcs` registers a hit at `angle`. */
    ghost predicate HitAt(arcs: seq<ArcState>, angle: real, padRad: real)
    {
      exists j :: 0 <= j < |arcs| && ArcHit(config, arcs[j], angle, padRad)
    }

    /** The inner loop of the hit test: whether some arc registers a hit at `angle`. */
    method AnyArcHits(angle: real, padRad: real) returns (hit: bool)
      ensures hit <==> HitAt(spawner.arcs, angle, padRad)
    {
      var j := 0;
      while j < |spawner.arcs|
        invariant 0 <= j <= |spawner.arcs|
        invariant forall j' :: 0 <= j' < j ==> !ArcHit(config, spawner.arcs[j'], angle, padRad)
      {
        if ArcHit(config, spawner.arcs[j], angle, padRad) {
          return true;
        }
        j := j + 1;
      }
      return false;
    }

    /**
     * The body of `CheckHitSwept` for a given sweep: with a track, the sweep
     * `delta` from `prevAngle` is sampled at `SubstepCount` evenly spaced
     * points (the last one at the full sweep), and the result is whether some
     * arc registers a hit at some sample.
     */
    method CheckHitAlong(prevAngle: real, delta: real, dt: real) returns (hit: bool)
      ensures hit <==> (track.Some? && SweptHit(spawner.arcs, prevAngle, delta, dt))
    {
      if track.None? {
        return false;
      }
      var steps := SubstepCount(collisionSubsteps, delta);
      var padRadLocal := HitPadRad(delta, dt);
      var i := 1;
      while i <= steps
        invariant 1 <= i <= steps + 1
        invariant forall i', j :: 1 <= i' < i && 0 <= j < |spawner.arcs| ==>
                    !ArcHit(config, spawner.arcs[j], Sample(prevAngle, delta, i', steps), padRadLocal)
      {
        var a := Sample(prevAngle, delta, i, steps);
        hit := AnyArcHits(a, padRadLocal);
        if hit {
          return;
        }
        i := i + 1;
      }
      return false;
    }

    /**
     * `CheckHitSwept` as written: the sweep is `DeltaAngleRad(currAngle,
     * prevAngle)`, which walks away from the new position (see
     * `LastSampleMirrorsMove`).
     */
    method CheckHitSweptAsWritten(prevAngle: real, currAngle: real, dt: real) returns (hit: bool)
      ensures hit <==> (track.Some? && SweptHit(spawner.arcs, prevAngle, SweepDelta(prevAngle, currAngle), dt))
    {
      hit := CheckHitAlong(prevAngle, SweepDelta(prevAngle, currAngle), dt);
    }

    /**
     * `CheckHitSwept` with the sweep running from the old angle to the new
     * one.  Its last sample is the new position, so an arc that registers a
     * hit there always ends the game.
     */
    method CheckHitSwept(prevAngle: real, currAngle: real, dt: real) returns (hit: bool)
      ensures hit <==> (track.Some? && SweptHit(spawner.arcs, prevAngle, ForwardDelta(prevAngle, currAngle), dt))
      ensures track.Some? && HitAt(spawner.arcs, WrapRad(currAngle), HitPadRad(ForwardDelta(prevAngle, currAngle), dt)) ==> hit
    {
      var delta := ForwardDelta(prevAngle, currAngle);
      hit := CheckHitAlong(prevAngle, delta, dt);
      var steps := SubstepCount(collisionSubsteps, delta);
      LastSampleIsPosition(prevAngle, currAngle, steps);
    }

    /**
     * `DoGraze`: when the nearest Stick arc edge is closer than the threshold
     * but not touching, `dt` is added to the accumulator and every whole 0.1 s
     * in it becomes a point; otherwise the accumulator decays by `dt / 2`,
     * not below 0.
     */
    method DoGraze(dt: real)
      requires Valid() && dt >= 0.0
      modifies this`grazeAccum, this`score
      ensures Valid()
      ensures multiplier == old(multiplier) && chainNoPickupTimer == old(chainNoPickupTimer)
      ensures var minEdge := MinStickEdge(spawner.arcs, player.angleRad);
              if minEdge < config.grazeThresholdDeg && minEdge > 0.0 then
                && score == old(score) + GrazePoints(old(grazeAccum) + dt)
                && grazeAccum == old(grazeAccum) + dt - GrazePoints(old(grazeAccum) + dt) as real * GrazePointSec
              else
                score == old(score) && grazeAccum == Max(0.0, old(grazeAccum) - dt * 0.5)
    {
      var minEdge := FloatMax;
      var arcs := spawner.arcs;
      var i := 0;
      while i < |arcs|
        invariant 0 <= i <= |arcs|
        invariant minEdge == MinStickEdge(arcs[..i], player.angleRad)
      {
        assert arcs[..i + 1][..i] == arcs[..i];
        var a := arcs[i];
        if a.phase == Stick {
          var d := EdgeDistanceDeg(a, player.angleRad);
          if d < minEdge {
            minEdge := d;
          }
        }
        i := i + 1;
      }
      assert arcs[..|arcs|] == arcs;
      var th := config.grazeThresholdDeg;
      if minEdge < th && minEdge > 0.0 {
        grazeAccum := grazeAccum + dt;
        ghost var start := grazeAccum;
        while grazeAccum >= GrazePointSec
          invariant grazeAccum >= 0.0
          invariant score >= old(score)
          invariant start == grazeAccum + (score - old(score)) as real * GrazePointSec
          decreases (grazeAccum * 10.0).Floor
        {
          grazeAccum := grazeAccum - GrazePointSec;
          score := score + 1;
        }
        GrazePointsUnique(start, score - old(score));
      } else {
        grazeAccum := Max(0.0, grazeAccum - dt * 0.5);
      }
    }

    /**
     * The pickup branch of `TryPickupOrb`: the orb's score times the
     * multiplier, rounded, is added; the chain grows by `chainStep` up to
     * `chainMax` and its timer restarts; the arcs may fade; and the orb is
     * replaced by a new one, placed around the arcs as they are after the fade.
     */
    method CollectOrb(jitterDraw: real)
      requires Valid()
      modifies this`score, this`multiplier, this`chainNoPickupTimer, spawner, orb
      ensures Valid()
      ensures score == old(score) + OrbGain(config.orbScore, old(multiplier))
      ensures multiplier == Min(config.chainMax, old(multiplier) + config.chainStep)
      ensures chainNoPickupTimer == 0.0 && !orb.TimeoutPending()
      ensures orb.View() == OrbView(true, OrbPlacement(spawner.arcs, player.angleRad, jitterDraw), 0.0)
      ensures !config.fadeArcsWhenOrbPicked ==> spawner.arcs == old(spawner.arcs)
      ensures config.fadeArcsWhenOrbPicked ==> FadedAll(old(spawner.arcs), spawner.arcs, config.forceFadeAllSec)
      ensures SpawnerClockKept(old(spawner.difficultyT), old(spawner.elapsed), old(spawner.spawnTimer),
                               old(spawner.currentStageIndex))
    {
      var gain := OrbGain(config.orbScore, multiplier);
      score := score + gain;
      multiplier := Min(config.chainMax, multiplier + config.chainStep);
      if config.fadeArcsWhenOrbPicked {
        FadeAllArcs();
      }
      orb.Kill();
      TrySpawnOrb(jitterDraw);
      chainNoPickupTimer := 0.0;
    }

    /** The orb at `o` is within the pickup pad of the player at `playerAngleRad`. */
    predicate InPickupReach(o: OrbView, playerAngleRad: real)
    {
      o.isAlive && Abs(DeltaAngleRad(playerAngleRad, o.angleRad)) <= OrbPickupPadRad(config)
    }

    /**
     * `TryPickupOrb`: a live orb within the pickup pad of the player is taken:
     * the score grows by the orb's value times the multiplier (rounded half to
     * even), the multiplier steps up to at most `chainMax`, the arcs may be
     * faded, a new orb is placed and the chain timer restarts.  Otherwise the
     * chain timer runs, and once it reaches the reset time the multiplier
     * drops back to 1.  A dead orb changes nothing.
     */
    method TryPickupOrb(dt: real, jitterDraw: real)
      requires Valid()
      modifies this`score, this`multiplier, this`chainNoPickupTimer, spawner, orb
      ensures Valid()
      ensures SpawnerClockKept(old(spawner.difficultyT), old(spawner.elapsed), old(spawner.spawnTimer),
                               old(spawner.currentStageIndex))
      ensures !old(orb.isAlive) ==>
                && score == old(score) && multiplier == old(multiplier) && chainNoPickupTimer == old(chainNoPickupTimer)
                && spawner.arcs == old(spawner.arcs)
                && orb.View() == old(orb.View()) && orb.TimeoutPending() == old(orb.TimeoutPending())
      ensures InPickupReach(old(orb.View()), player.angleRad) ==>
                && score == old(score) + OrbGain(config.orbScore, old(multiplier))
                && multiplier == Min(config.chainMax, old(multiplier) + config.chainStep)
                && chainNoPickupTimer == 0.0
                && (config.fadeArcsWhenOrbPicked ==> FadedAll(old(spawner.arcs), spawner.arcs, config.forceFadeAllSec))
                && (!config.fadeArcsWhenOrbPicked ==> spawner.arcs == old(spawner.arcs))
                && orb.View() == OrbView(true, OrbPlacement(spawner.arcs, player.angleRad, jitterDraw), 0.0)
                && !orb.TimeoutPending()
      ensures old(orb.isAlive) && !InPickupReach(old(orb.View()), player.angleRad) ==>
                && score == old(score) && spawner.arcs == old(spawner.arcs)
                && orb.View() == old(orb.View()) && orb.TimeoutPending() == old(orb.TimeoutPending())
                && (old(chainNoPickupTimer) + dt >= config.chainResetIfNoPickupSec ==>
                      multiplier == 1.0 && chainNoPickupTimer == 0.0)
                && (old(chainNoPickupTimer) + dt < config.chainResetIfNoPickupSec ==>
                      multiplier == old(multiplier) && chainNoPickupTimer == old(chainNoPickupTimer) + dt)
    {
      if !orb.isAlive {
        return;
      }
      var diff := Abs(DeltaAngleRad(player.angleRad, orb.angleRad));
      if diff <= OrbPickupPadRad(config) {
        CollectOrb(jitterDraw);
      } else {
        chainNoPickupTimer := chainNoPickupTimer + dt;
        if chainNoPickupTimer >= config.chainResetIfNoPickupSec {
          multiplier := 1.0;
          chainNoPickupTimer := 0.0;
        }
      }
    }

    /**
     * The flip-buffer step of `TickPlaying`: a running window counts down by
     * `dt`; if it runs out the pending flips are dropped (the window stays at
     * 0), and then one pending flip, if any is left, reverses the player.
     */
    method RunFlipBuffer(dt: real)
      requires Valid()
      modifies this`flipBufferTimer, this`pendingFlipCount, player`dir
      ensures Valid()
      ensures var b := BufferStep(old(flipBufferTimer), old(pendingFlipCount), dt);
              && flipBufferTimer == b.0 && pendingFlipCount == b.1
              && player.dir == (if b.2 then -old(player.dir) else old(player.dir))
    {
      if flipBufferTimer > 0.0 {
        flipBufferTimer := flipBufferTimer - dt;
        if flipBufferTimer < 0.0 {
          flipBufferTimer := 0.0;
          pendingFlipCount := 0;
        }
      }
      ConsumeFlipBuffered();
    }

    /**
     * The orb expires this frame: a live orb whose age reaches its lifetime,
     * or a dead one whose expiry nobody has consumed yet.
     */
    predicate OrbExpires(o: OrbView, pending: bool, dt: real)
    {
      if o.isAlive then o.timer + dt >= config.orbLifetimeSec else pending
    }

    /**
     * The arcs after the orb step: every live one starts a forced fade when
     * the orb expired and the configuration fades on timeout; otherwise they
     * are the arcs from before.
     */
    ghost predicate OrbStepArcs(before: seq<ArcState>, after: seq<ArcState>, expired: bool)
    {
      if expired && config.fadeArcsWhenOrbTimeout then FadedAll(before, after, config.forceFadeAllSec)
      else after == before
    }

    /**
     * The orb after the orb step of a frame: one that expires is replaced at
     * once by a new orb of age 0, placed around `arcs` (the arcs after any
     * fade); a live one ages by `dt`; a dead one stays as it is.  So the orb
     * is alive afterwards exactly when it was alive or had a pending expiry,
     * and a live orb never ends the step older than its lifetime.
     */
    ghost function AgedOrb(o: OrbView, pending: bool, dt: real, arcs: seq<ArcState>,
                           playerAngleRad: real, jitterDraw: real): (r: OrbView)
      ensures r.isAlive <==> o.isAlive || pending
      ensures o.isAlive && config.orbLifetimeSec > 0.0 ==> r.timer < config.orbLifetimeSec
      ensures r.isAlive && !o.isAlive ==> r.timer == 0.0 && 0.0 <= r.angleRad < TwoPi
    {
      if OrbExpires(o, pending, dt) then OrbView(true, OrbPlacement(arcs, playerAngleRad, jitterDraw), 0.0)
      else if o.isAlive then o.(timer := o.timer + dt)
      else o
    }

    /**
     * The world step of `TickPlaying`: the player moves, the spawner runs one
     * `TickFrame` at the difficulty of the current score around the player's
     * new angle, and the orb ages; an orb that has just expired may fade the
     * arcs and is replaced.  Returns the player's angle before and after the
     * move.
     */
    method MoveWorld(dt: real, intervalDraw: real, angleDraws: nat -> real, jitterDraw: real)
      returns (prevAngle: real, currAngle: real)
      requires Valid()
      modifies player`angleRad, spawner, orb
      ensures Valid()
      ensures prevAngle == old(player.angleRad) && currAngle == player.angleRad
      ensures track.Some? ==> currAngle == WrapRad(prevAngle + player.StepRad(dt))
      ensures track.None? ==> currAngle == prevAngle
      ensures var f := TickFrame(config, track, pow, CalcDifficultyT(config, pow, score), old(spawner.Snapshot()),
                                 dt, currAngle, intervalDraw, angleDraws);
              && SpawnerClockKept(CalcDifficultyT(config, pow, score), f.elapsed, f.spawnTimer, f.stageIndex)
              && OrbStepArcs(f.arcs, spawner.arcs, OrbExpires(old(orb.View()), old(orb.TimeoutPending()), dt))
      ensures orb.View() == AgedOrb(old(orb.View()), old(orb.TimeoutPending()), dt, spawner.arcs, currAngle, jitterDraw)
      ensures !orb.TimeoutPending()
    {
      prevAngle := player.angleRad;
      player.Tick(dt);
      currAngle := player.angleRad;

      RunSpawner(dt, currAngle, intervalDraw, angleDraws);
      AgeOrb(dt, jitterDraw);
    }

    /**
     * The spawner step of `MoveWorld`: the spawner's difficulty follows the
     * score and it runs one tick around the player's new angle.
     */
    method RunSpawner(dt: real, playerAngleRad: real, intervalDraw: real, angleDraws: nat -> real)
      requires Valid()
      modifies spawner
      ensures Valid()
      ensures spawner.difficultyT == CalcDifficultyT(config, pow, score)
      ensures spawner.Snapshot() == TickFrame(config, track, pow, CalcDifficultyT(config, pow, score),
                                              old(spawner.Snapshot()), dt, playerAngleRad, intervalDraw, angleDraws)
    {
      spawner.difficultyT := CalcDifficultyT(config, pow, score);
      spawner.Tick(dt, playerAngleRad, intervalDraw, angleDraws);
    }

    /**
     * The orb step of `MoveWorld`: the orb ages, and one that has just expired
     * may fade the arcs and is replaced at once.
     */
    method AgeOrb(dt: real, jitterDraw: real)
      requires Valid()
      modifies spawner, orb
      ensures Valid()
      ensures SpawnerClockKept(old(spawner.difficultyT), old(spawner.elapsed), old(spawner.spawnTimer),
                               old(spawner.currentStageIndex))
      ensures OrbStepArcs(old(spawner.arcs), spawner.arcs, OrbExpires(old(orb.View()), old(orb.TimeoutPending()), dt))
      ensures orb.View() == AgedOrb(old(orb.View()), old(orb.TimeoutPending()), dt, spawner.arcs, player.angleRad, jitterDraw)
      ensures !orb.TimeoutPending()
    {
      orb.Tick(dt);
      var timedOut := orb.ConsumeJustTimedOut();
      if timedOut {
        if config.fadeArcsWhenOrbTimeout {
          FadeAllArcs();
        }
        TrySpawnOrb(jitterDraw);
      }
    }

    /**
     * The orb part of the scoring step, from the score `score0`, multiplier
     * `multiplier0`, chain timer `chain0`, orb `o0` and arcs `arcs0`, with the
     * player at `playerAngleRad`: an orb within reach is taken as
     * `TryPickupOrb` says, a live one out of reach runs the chain timer, and a
     * dead one is replaced.
     */
    ghost predicate OrbSettled(score0: int, multiplier0: real, chain0: real, o0: OrbView, arcs0: seq<ArcState>,
                               playerAngleRad: real, dt: real, pickupJitter: real, respawnJitter: real)
      reads this, spawner, orb
    {
      var picked := InPickupReach(o0, playerAngleRad);
      && score == (if picked then score0 + OrbGain(config.orbScore, multiplier0) else score0)
      && (picked ==> multiplier == Min(config.chainMax, multiplier0 + config.chainStep) && chainNoPickupTimer == 0.0)
      && (o0.isAlive && !picked && chain0 + dt >= config.chainResetIfNoPickupSec ==>
            multiplier == 1.0 && chainNoPickupTimer == 0.0)
      && (o0.isAlive && !picked && chain0 + dt < config.chainResetIfNoPickupSec ==>
            multiplier == multiplier0 && chainNoPickupTimer == chain0 + dt)
      && (!o0.isAlive ==> multiplier == multiplier0 && chainNoPickupTimer == chain0)
      && (if picked && config.fadeArcsWhenOrbPicked then FadedAll(arcs0, spawner.arcs, config.forceFadeAllSec)
          else spawner.arcs == arcs0)
      && orb.View() == (if o0.isAlive && !picked then o0
                        else OrbView(true, OrbPlacement(spawner.arcs, playerAngleRad,
                                                        if picked then pickupJitter else respawnJitter), 0.0))
    }

    /**
     * The state after the scoring step of a frame that started from the score
     * `score0`, multiplier `multiplier0`, graze accumulator `grazeAccum0`,
     * chain timer `chain0`, orb `o0` and arcs `arcs0`: the graze points of
     * `DoGraze` are added and the accumulator keeps the rest (or decays), the
     * orb is settled as `OrbSettled` says from the grazed score, and the speed
     * follows the final score.
     */
    ghost predicate ScoredFrom(score0: int, multiplier0: real, grazeAccum0: real, chain0: real,
                               o0: OrbView, arcs0: seq<ArcState>, dt: real, pickupJitter: real, respawnJitter: real)
      reads this, player, spawner, orb
    {
      var minEdge := MinStickEdge(arcs0, player.angleRad);
      var grazing := minEdge < config.grazeThresholdDeg && minEdge > 0.0;
      var grazed := if grazing then score0 + GrazePoints(grazeAccum0 + dt) else score0;
      && grazeAccum == (if grazing then grazeAccum0 + dt - GrazePoints(grazeAccum0 + dt) as real * GrazePointSec
                        else Max(0.0, grazeAccum0 - dt * 0.5))
      && OrbSettled(grazed, multiplier0, chain0, o0, arcs0, player.angleRad, dt, pickupJitter, respawnJitter)
      && player.angularSpeedDegPerSec == Max(0.0, CalcAngularSpeedDegPerSec(config, pow, score))
    }

    /**
     * The orb part of the scoring step: `TryPickupOrb`, then a new orb if
     * there is none.
     */
    method SettleOrb(dt: real, pickupJitter: real, respawnJitter: real)
      requires Valid()
      modifies this`score, this`multiplier, this`chainNoPickupTimer, spawner, orb
      ensures Valid()
      ensures OrbSettled(old(score), old(multiplier), old(chainNoPickupTimer), old(orb.View()), old(spawner.arcs),
                         player.angleRad, dt, pickupJitter, respawnJitter)
      ensures SpawnerClockKept(old(spawner.difficultyT), old(spawner.elapsed), old(spawner.spawnTimer),
                               old(spawner.currentStageIndex))
      ensures orb.isAlive && !orb.TimeoutPending()
      ensures ChainConfig(config) && config.orbScore >= 0 ==> score >= old(score)
    {
      if ChainConfig(config) && config.orbScore >= 0 {
        OrbGainAtLeastScore(config.orbScore, multiplier);
      }
      TryPickupOrb(dt, pickupJitter);
      if !orb.isAlive {
        TrySpawnOrb(respawnJitter);
      }
    }

    /**
     * The scoring step of `TickPlaying` after a frame without a hit: grazing
     * and pickups are scored, a missing orb is replaced and the speed follows
     * the score.
     */
    method ScoreFrame(dt: real, pickupJitter: real, respawnJitter: real)
      requires Valid() && dt >= 0.0
      modifies this`score, this`multiplier, this`chainNoPickupTimer, this`grazeAccum,
               player`angularSpeedDegPerSec, spawner, orb
      ensures Valid()
      ensures ScoredFrom(old(score), old(multiplier), old(grazeAccum), old(chainNoPickupTimer),
                         old(orb.View()), old(spawner.arcs), dt, pickupJitter, respawnJitter)
      ensures SpawnerClockKept(old(spawner.difficultyT), old(spawner.elapsed), old(spawner.spawnTimer),
                               old(spawner.currentStageIndex))
      ensures orb.isAlive && !orb.TimeoutPending()
      ensures ChainConfig(config) && config.orbScore >= 0 ==> score >= old(score)
    {
      DoGraze(dt);
      SettleOrb(dt, pickupJitter, respawnJitter);
      ApplySpeedFromScore();
    }

    /**
     * The start of a frame of play: the flip buffer runs (a buffered flip may
     * reverse the player), then the world step of `MoveWorld`.  Returns the
     * player's angle before and after the move.
     */
    method BeginFrame(dt: real, intervalDraw: real, angleDraws: nat -> real, jitterDraw: real)
      returns (prevAngle: real, currAngle: real)
      requires Valid()
      modifies this`flipBufferTimer, this`pendingFlipCount, player`dir, player`angleRad, spawner, orb
      ensures Valid()
      ensures var b := BufferStep(old(flipBufferTimer), old(pendingFlipCount), dt);
              && flipBufferTimer == b.0 && pendingFlipCount == b.1
              && player.dir == (if b.2 then -old(player.dir) else old(player.dir))
      ensures prevAngle == old(player.angleRad) && currAngle == player.angleRad
      ensures track.Some? ==> currAngle == WrapRad(prevAngle + TurnRad(player.dir, player.angularSpeedDegPerSec, dt))
      ensures track.None? ==> currAngle == prevAngle
      ensures var f := TickFrame(config, track, pow, CalcDifficultyT(config, pow, score), old(spawner.Snapshot()),
                                 dt, currAngle, intervalDraw, angleDraws);
              && SpawnerClockKept(CalcDifficultyT(config, pow, score), f.elapsed, f.spawnTimer, f.stageIndex)
              && OrbStepArcs(f.arcs, spawner.arcs, OrbExpires(old(orb.View()), old(orb.TimeoutPending()), dt))
      ensures orb.View() == AgedOrb(old(orb.View()), old(orb.TimeoutPending()), dt, spawner.arcs, currAngle, jitterDraw)
      ensures !orb.TimeoutPending()
      ensures state == old(state) && bestScore == old(bestScore) && score == old(score)
      ensures multiplier == old(multiplier) && grazeAccum == old(grazeAccum) && chainNoPickupTimer == old(chainNoPickupTimer)
      ensures player.angularSpeedDegPerSec == old(player.angularSpeedDegPerSec)
    {
      RunFlipBuffer(dt);
      prevAngle, currAngle := MoveWorld(dt, intervalDraw, angleDraws, jitterDraw);
    }

    /**
     * The end of a frame of play, once the sweep has been tested: a hit ends
     * the game and changes nothing else but the best score; otherwise grazing
     * and pickups are scored, a missing orb is replaced and the speed follows
     * the score.  The player's position and direction are not touched.
     */
    method EndFrame(hit: bool, dt: real, pickupJitter: real, respawnJitter: real)
      requires Valid() && dt >= 0.0
      modifies this`state, this`bestScore, this`score, this`multiplier, this`chainNoPickupTimer, this`grazeAccum,
               player`angularSpeedDegPerSec, spawner, orb
      ensures Valid()
      ensures SpawnerClockKept(old(spawner.difficultyT), old(spawner.elapsed), old(spawner.spawnTimer),
                               old(spawner.currentStageIndex))
      ensures hit ==> && state == GameOver && bestScore == MaxInt(old(bestScore), old(score))
                      && score == old(score) && multiplier == old(multiplier) && grazeAccum == old(grazeAccum)
                      && chainNoPickupTimer == old(chainNoPickupTimer)
                      && spawner.arcs == old(spawner.arcs)
                      && orb.View() == old(orb.View()) && orb.TimeoutPending() == old(orb.TimeoutPending())
                      && player.angularSpeedDegPerSec == old(player.angularSpeedDegPerSec)
      ensures !hit ==> && state == old(state) && bestScore == old(bestScore)
                       && ScoredFrom(old(score), old(multiplier), old(grazeAccum), old(chainNoPickupTimer),
                                     old(orb.View()), old(spawner.arcs), dt, pickupJitter, respawnJitter)
                       && orb.isAlive && !orb.TimeoutPending()
      ensures ChainConfig(config) && config.orbScore >= 0 ==> score >= old(score)
      ensures flipBufferTimer == old(flipBufferTimer) && pendingFlipCount == old(pendingFlipCount)
      ensures player.dir == old(player.dir) && player.angleRad == old(player.angleRad)
    {
      if hit {
        OnMiss();
        return;
      }
      ScoreFrame(dt, pickupJitter, respawnJitter);
    }

    /**
     * `TickPlaying`: one frame of play.  The flip buffer runs out (dropping the
     * pending flips), a buffered flip is used, the player moves, the spawner
     * runs at the difficulty of the current score, the orb ages (an expiry may
     * fade the arcs and places a new orb), and then the sweep is tested as
     * written, with `DeltaAngleRad(currAngle, prevAngle)`: a hit on it ends
     * the game, and otherwise grazing and pickups are scored, a missing orb is
     * replaced and the speed follows the score.  The ghost results name the
     * angles before and after the move, the arcs the sweep was tested against
     * (the spawner's arcs after its tick and after any timeout fade), the orb
     * after it aged, and whether the sweep hit.
     */
    method TickPlaying(dt: real, intervalDraw: real, angleDraws: nat -> real, jitterDraws: nat -> real)
      returns (ghost prevAngle: real, ghost currAngle: real, ghost tested: seq<ArcState>,
               ghost aged: OrbView, ghost hit: bool)
      requires Valid() && dt >= 0.0
      modifies this`state, this`bestScore, this`score, this`multiplier, this`chainNoPickupTimer, this`grazeAccum,
               this`flipBufferTimer, this`pendingFlipCount,
               player`dir, player`angleRad, player`angularSpeedDegPerSec, spawner, orb
      ensures Valid()
      ensures var b := BufferStep(old(flipBufferTimer), old(pendingFlipCount), dt);
              && flipBufferTimer == b.0 && pendingFlipCount == b.1
              && player.dir == (if b.2 then -old(player.dir) else old(player.dir))
      ensures prevAngle == old(player.angleRad) && currAngle == player.angleRad
      ensures track.Some? ==>
                currAngle == WrapRad(prevAngle + TurnRad(player.dir, old(player.angularSpeedDegPerSec), dt))
      ensures track.None? ==> currAngle == prevAngle
      ensures var f := TickFrame(config, track, pow, CalcDifficultyT(config, pow, old(score)), old(spawner.Snapshot()),
                                 dt, currAngle, intervalDraw, angleDraws);
              && SpawnerClockKept(CalcDifficultyT(config, pow, old(score)), f.elapsed, f.spawnTimer, f.stageIndex)
              && OrbStepArcs(f.arcs, tested, OrbExpires(old(orb.View()), old(orb.TimeoutPending()), dt))
      ensures aged == AgedOrb(old(orb.View()), old(orb.TimeoutPending()), dt, tested, currAngle, jitterDraws(0))
      ensures hit <==> track.Some? && SweptHit(tested, prevAngle, SweepDelta(prevAngle, currAngle), dt)
      ensures hit ==> && state == GameOver && bestScore == MaxInt(old(bestScore), old(score))
                      && score == old(score) && multiplier == old(multiplier) && grazeAccum == old(grazeAccum)
                      && chainNoPickupTimer == old(chainNoPickupTimer)
                      && spawner.arcs == tested && orb.View() == aged
                      && player.angularSpeedDegPerSec == old(player.angularSpeedDegPerSec)
      ensures !hit ==> && state == old(state) && bestScore == old(bestScore) && orb.isAlive
                       && ScoredFrom(old(score), old(multiplier), old(grazeAccum), old(chainNoPickupTimer),
                                     aged, tested, dt, jitterDraws(1), jitterDraws(2))
      ensures !orb.TimeoutPending()
      ensures ChainConfig(config) && config.orbScore >= 0 ==> score >= old(score)
    {
      var before, after := BeginFrame(dt, intervalDraw, angleDraws, jitterDraws(0));
      prevAngle, currAngle, tested, aged := before, after, spawner.arcs, orb.View();
      var h := CheckHitSweptAsWritten(before, after, dt);
      hit := h;
      EndFrame(h, dt, jitterDraws(1), jitterDraws(2));
    }

    /**
     * `TickPlaying` with the forward sweep of `CheckHitSwept`: the same frame,
     * except that the sweep runs from the old angle to the new one, so an arc
     * that registers a hit at the player's new position always ends the game.
     */
    method TickPlayingForward(dt: real, intervalDraw: real, angleDraws: nat -> real, jitterDraws: nat -> real)
      returns (ghost prevAngle: real, ghost currAngle: real, ghost tested: seq<ArcState>,
               ghost aged: OrbView, ghost hit: bool)
      requires Valid() && dt >= 0.0
      modifies this`state, this`bestScore, this`score, this`multiplier, this`chainNoPickupTimer, this`grazeAccum,
               this`flipBufferTimer, this`pendingFlipCount,
               player`dir, player`angleRad, player`angularSpeedDegPerSec, spawner, orb
      ensures Valid()
      ensures var b := BufferStep(old(flipBufferTimer), old(pendingFlipCount), dt);
              && flipBufferTimer == b.0 && pendingFlipCount == b.1
              && player.dir == (if b.2 then -old(player.dir) else old(player.dir))
      ensures prevAngle == old(player.angleRad) && currAngle == player.angleRad
      ensures track.Some? ==>
                currAngle == WrapRad(prevAngle + TurnRad(player.dir, old(player.angularSpeedDegPerSec), dt))
      ensures track.None? ==> currAngle == prevAngle
      ensures var f := TickFrame(config, track, pow, CalcDifficultyT(config, pow, old(score)), old(spawner.Snapshot()),
                                 dt, currAngle, intervalDraw, angleDraws);
              && SpawnerClockKept(CalcDifficultyT(config, pow, old(score)), f.elapsed, f.spawnTimer, f.stageIndex)
              && OrbStepArcs(f.arcs, tested, OrbExpires(old(orb.View()), old(orb.TimeoutPending()), dt))
      ensures aged == AgedOrb(old(orb.View()), old(orb.TimeoutPending()), dt, tested, currAngle, jitterDraws(0))
      ensures hit <==> track.Some? && SweptHit(tested, prevAngle, ForwardDelta(prevAngle, currAngle), dt)
      ensures track.Some? && HitAt(tested, WrapRad(currAngle), HitPadRad(ForwardDelta(prevAngle, currAngle), dt)) ==> hit
      ensures hit ==> && state == GameOver && bestScore == MaxInt(old(bestScore), old(score))
                      && score == old(score) && multiplier == old(multiplier) && grazeAccum == old(grazeAccum)
                      && chainNoPickupTimer == old(chainNoPickupTimer)
                      && spawner.arcs == tested && orb.View() == aged
                      && player.angularSpeedDegPerSec == old(player.angularSpeedDegPerSec)
      ensures !hit ==> && state == old(state) && bestScore == old(bestScore) && orb.isAlive
                       && ScoredFrom(old(score), old(multiplier), old(grazeAccum), old(chainNoPickupTimer),
                                     aged, tested, dt, jitterDraws(1), jitterDraws(2))
      ensures !orb.TimeoutPending()
      ensures ChainConfig(config) && config.orbScore >= 0 ==> score >= old(score)
    {
      var before, after := BeginFrame(dt, intervalDraw, angleDraws, jitterDraws(0));
      prevAngle, currAngle, tested, aged := before, after, spawner.arcs, orb.View();
      var h := CheckHitSwept(before, after, dt);
      hit := h;
      EndFrame(h, dt, jitterDraws(1), jitterDraws(2));
    }
  }
}
