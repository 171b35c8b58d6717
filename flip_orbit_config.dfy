/**
 * The game's tuning asset (`FlipOrbitConfig`): the stage table, the hit-mode
 * policy and the three difficulty curves that turn the score into a
 * difficulty value, the player's angular speed and the cap on concurrent arcs.
 *
 * `Mathf.Pow` is not definable here; every curve takes the power function as
 * a parameter `pow`, and `PowLaw` states the facts about `x^gamma` (gamma > 0,
 * x in [0, 1]) that the proofs rely on.
 */
module FlipOrbitConfig {
  import opened Mathf

  /** Which obstacle phases count as dangerous for the hit test. */
  datatype ArcHitMode = StickOnly | TravelAndStick | TelegraphTravelStick | AllPhasesIncludingFade

  /** One row of the stage table; the active row is the last one whose `startSec` has passed. */
  datatype Stage = Stage(
    startSec: real,
    spawnIntervalMin: real,
    spawnIntervalMax: real,
    arcSizeDeg: real,
    telegraphTimeSec: real,
    travelTimeSec: real,
    stickTimeSec: real,
    fadeOutSec: real,
    startRadiusScale: real,
    telegraphOffsetScale: real)

  /** `Stage.Default`. */
  const DefaultStage: Stage := Stage(0.0, 0.75, 1.20, 32.0, 0.25, 0.38, 0.30, 0.45, 2.0, 1.35)

  /** The simulation-relevant fields of the asset (the line-renderer settings are left out). */
  datatype Config = Config(
    stages: seq<Stage>,
    scoreForMaxSpeed: real,
    playerSpeedGamma: real,
    playerMinSpeedDegPerSec: real,
    playerMaxSpeedDegPerSec: real,
    difficultyGamma: real,
    useExactArcHit: bool,
    hitPadDeg: real,
    grazeThresholdDeg: real,
    arcHitMode: ArcHitMode,
    orbScore: int,
    chainStep: real,
    chainMax: real,
    chainResetIfNoPickupSec: real,
    orbLifetimeSec: real,
    orbJitterDeg: real,
    orbPickupPadDeg: real,
    minSpawnSepFromPlayerDeg: real,
    forceFadeAllSec: real,
    fadeArcsWhenOrbPicked: bool,
    fadeArcsWhenOrbTimeout: bool,
    travelTimeMinScale: real,
    telegraphTimeMinScale: real,
    travelDifficultyGamma: real,
    baseMaxConcurrentArcs: int,
    maxMaxConcurrentArcs: int,
    arcsMaxGamma: real)

  /** The asset's default values. */
  const DefaultConfig: Config := Config(
    [DefaultStage], 220.0, 1.25, 110.0, 300.0, 0.5,
    true, 3.0, 6.0, StickOnly,
    10, 0.2, 3.0, 5.0, 4.0, 6.0, 4.0,
    35.0, 0.3, false, true,
    0.35, 0.60, 0.8,
    3, 9, 0.8)

  /** What the curves assume of `Mathf.Pow(x, gamma)` for gamma > 0 and x in [0, 1]. */
  ghost predicate PowLaw(pow: (real, real) -> real)
  {
    && (forall x, g :: 0.0 <= x <= 1.0 && g > 0.0 ==> 0.0 <= pow(x, g) <= 1.0)
    && (forall x, y, g :: 0.0 <= x <= y <= 1.0 && g > 0.0 ==> pow(x, g) <= pow(y, g))
    && (forall g :: g > 0.0 ==> pow(0.0, g) == 0.0 && pow(1.0, g) == 1.0)
  }

  /**
   * The normalised score `Clamp01(score / Max(1, scoreForMaxSpeed))` shared by
   * the first two curves; the divisor is never below 1.
   */
  function ScoreProgress(cfg: Config, score: int): (x: real)
    ensures 0.0 <= x <= 1.0
    ensures score <= 0 ==> x == 0.0
    ensures score as real >= Max(1.0, cfg.scoreForMaxSpeed) ==> x == 1.0
  {
    var d := Max(1.0, cfg.scoreForMaxSpeed);
    QuotientBounds(score as real, d);
    Clamp01(score as real / d)
  }

  lemma QuotientBounds(a: real, d: real)
    requires d >= 1.0
    ensures a <= 0.0 ==> a / d <= 0.0
    ensures a >= d ==> a / d >= 1.0
  {
    var q := a / d;
    assert q * d == a;
  }

  lemma QuotientMonotone(a: real, b: real, d: real)
    requires d >= 1.0 && a <= b
    ensures a / d <= b / d
  {
    assert b / d - a / d == (b - a) / d;
  }

  lemma {:induction false} ScoreProgressMonotone(cfg: Config, s1: int, s2: int)
    requires s1 <= s2
    ensures ScoreProgress(cfg, s1) <= ScoreProgress(cfg, s2)
  {
    var d := Max(1.0, cfg.scoreForMaxSpeed);
    QuotientMonotone(s1 as real, s2 as real, d);
  }

  /** `CalcDifficultyT`: the normalised score raised to `difficultyGamma`; `CalcDifficultyTBounds` states its range. */
  function CalcDifficultyT(cfg: Config, pow: (real, real) -> real, score: int): (d: real)
    ensures PowLaw(pow) && cfg.difficultyGamma > 0.0 ==> 0.0 <= d <= 1.0
  {
    pow(ScoreProgress(cfg, score), cfg.difficultyGamma)
  }

  /** The difficulty lies in [0, 1]: 0 for a score of 0 or less, 1 from `scoreForMaxSpeed` on. */
  lemma CalcDifficultyTBounds(cfg: Config, pow: (real, real) -> real, score: int)
    requires PowLaw(pow) && cfg.difficultyGamma > 0.0
    ensures 0.0 <= CalcDifficultyT(cfg, pow, score) <= 1.0
    ensures score <= 0 ==> CalcDifficultyT(cfg, pow, score) == 0.0
    ensures score as real >= Max(1.0, cfg.scoreForMaxSpeed) ==> CalcDifficultyT(cfg, pow, score) == 1.0
  {
  }

  /** A higher score never lowers the difficulty. */
  lemma {:induction false} CalcDifficultyTMonotone(cfg: Config, pow: (real, real) -> real, s1: int, s2: int)
    requires PowLaw(pow) && cfg.difficultyGamma > 0.0 && s1 <= s2
    ensures CalcDifficultyT(cfg, pow, s1) <= CalcDifficultyT(cfg, pow, s2)
  {
    ScoreProgressMonotone(cfg, s1, s2);
  }

  /** `CalcAngularSpeedDegPerSec`: the player speed, between the configured minimum and maximum. */
  function CalcAngularSpeedDegPerSec(cfg: Config, pow: (real, real) -> real, score: int): (w: real)
    ensures Min(cfg.playerMinSpeedDegPerSec, cfg.playerMaxSpeedDegPerSec) <= w
    ensures w <= Max(cfg.playerMinSpeedDegPerSec, cfg.playerMaxSpeedDegPerSec)
  {
    var tPlayer := pow(ScoreProgress(cfg, score), cfg.playerSpeedGamma);
    Lerp(cfg.playerMinSpeedDegPerSec, cfg.playerMaxSpeedDegPerSec, tPlayer)
  }

  /** The speed is the minimum at a score of 0 or less and the maximum from `scoreForMaxSpeed` on. */
  lemma CalcAngularSpeedEnds(cfg: Config, pow: (real, real) -> real, score: int)
    requires PowLaw(pow) && cfg.playerSpeedGamma > 0.0
    ensures score <= 0 ==> CalcAngularSpeedDegPerSec(cfg, pow, score) == cfg.playerMinSpeedDegPerSec
    ensures score as real >= Max(1.0, cfg.scoreForMaxSpeed) ==>
      CalcAngularSpeedDegPerSec(cfg, pow, score) == cfg.playerMaxSpeedDegPerSec
  {
  }

  /** With min <= max, the player never slows down as the score grows. */
  lemma {:induction false} CalcAngularSpeedMonotone(cfg: Config, pow: (real, real) -> real, s1: int, s2: int)
    requires PowLaw(pow) && cfg.playerSpeedGamma > 0.0 && s1 <= s2
    requires cfg.playerMinSpeedDegPerSec <= cfg.playerMaxSpeedDegPerSec
    ensures CalcAngularSpeedDegPerSec(cfg, pow, s1) <= CalcAngularSpeedDegPerSec(cfg, pow, s2)
  {
    ScoreProgressMonotone(cfg, s1, s2);
    var g := cfg.playerSpeedGamma;
    LerpMonotone(cfg.playerMinSpeedDegPerSec, cfg.playerMaxSpeedDegPerSec,
                 pow(ScoreProgress(cfg, s1), g), pow(ScoreProgress(cfg, s2), g));
  }

  /** The largest concurrency cap the configuration allows. */
  function ArcCapCeiling(cfg: Config): int
  {
    MaxInt(cfg.baseMaxConcurrentArcs, cfg.maxMaxConcurrentArcs)
  }

  /**
   * `CalcMaxConcurrentArcs`: interpolate between the base and the maximum cap,
   * round half-to-even, clamp to [1, max(base, max)].
   */
  function CalcMaxConcurrentArcs(cfg: Config, pow: (real, real) -> real, difficultyT: real): (n: int)
    ensures ArcCapCeiling(cfg) >= 1 ==> 1 <= n <= ArcCapCeiling(cfg)
  {
    var t := pow(Clamp01(difficultyT), cfg.arcsMaxGamma);
    var f := Lerp(cfg.baseMaxConcurrentArcs as real, cfg.maxMaxConcurrentArcs as real, t);
    ClampInt(RoundToInt(f), 1, ArcCapCeiling(cfg))
  }

  /** At the two ends of the difficulty range the cap is the base and the maximum value. */
  lemma CalcMaxConcurrentArcsEnds(cfg: Config, pow: (real, real) -> real, difficultyT: real)
    requires PowLaw(pow) && cfg.arcsMaxGamma > 0.0
    requires 1 <= cfg.baseMaxConcurrentArcs && 1 <= cfg.maxMaxConcurrentArcs
    ensures difficultyT <= 0.0 ==> CalcMaxConcurrentArcs(cfg, pow, difficultyT) == cfg.baseMaxConcurrentArcs
    ensures difficultyT >= 1.0 ==> CalcMaxConcurrentArcs(cfg, pow, difficultyT) == cfg.maxMaxConcurrentArcs
  {
  }

  /** With base <= max, the cap never shrinks as the difficulty rises. */
  lemma {:induction false} CalcMaxConcurrentArcsMonotone(cfg: Config, pow: (real, real) -> real, d1: real, d2: real)
    requires PowLaw(pow) && cfg.arcsMaxGamma > 0.0 && d1 <= d2
    requires cfg.baseMaxConcurrentArcs <= cfg.maxMaxConcurrentArcs
    ensures CalcMaxConcurrentArcs(cfg, pow, d1) <= CalcMaxConcurrentArcs(cfg, pow, d2)
  {
    var b := cfg.baseMaxConcurrentArcs as real;
    var m := cfg.maxMaxConcurrentArcs as real;
    var t1 := pow(Clamp01(d1), cfg.arcsMaxGamma);
    var t2 := pow(Clamp01(d2), cfg.arcsMaxGamma);
    assert t1 <= t2;
    LerpMonotone(b, m, t1, t2);
    RoundToIntMonotone(Lerp(b, m, t1), Lerp(b, m, t2));
  }
}
