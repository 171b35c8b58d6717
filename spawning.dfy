/**
 * `ObstacleSpawner`: owns the list of live obstacle arcs.  Each frame it
 * advances the clock, picks the stage, counts down the spawn timer, spawns at
 * most one arc (and only below the concurrency cap), then ticks every arc and
 * removes the dead ones in place, walking the list backwards.
 *
 * The track is represented by its radius (`None` when the scene has no
 * track), the configuration by an `Option<Config>` (`None` when unassigned),
 * `Mathf.Pow` by the parameter `pow`, and the random draws by parameters:
 * the spawn-interval draw and the stream of `Random.value` draws used to pick
 * the spawn angle.
 */
module Spawning {
  import opened Mathf
  import opened Angles
  import opened FlipOrbitConfig
  import opened Arcs

  /** Stage `i` has begun by time `elapsed`. */
  predicate Started(stages: seq<Stage>, i: int, elapsed: real)
    requires 0 <= i < |stages|
  {
    elapsed >= stages[i].startSec
  }

  /**
   * The stage chosen by `UpdateStageIndex`, looking at stages[..n] from the top:
   * the largest started index, or `current` when none of them has started.
   */
  function StageIndex(stages: seq<Stage>, elapsed: real, current: int, n: nat): (idx: int)
    requires n <= |stages|
    ensures (0 <= idx < n && Started(stages, idx, elapsed) &&
             forall j :: idx < j < n ==> !Started(stages, j, elapsed)) ||
            (idx == current && forall j :: 0 <= j < n ==> !Started(stages, j, elapsed))
  {
    if n == 0 then current
    else if elapsed >= stages[n - 1].startSec then n - 1
    else StageIndex(stages, elapsed, current, n - 1)
  }

  /** The chosen stage index stays in bounds whenever the previous one was. */
  lemma StageIndexInBounds(stages: seq<Stage>, elapsed: real, current: int)
    requires 0 <= current < |stages|
    ensures 0 <= StageIndex(stages, elapsed, current, |stages|) < |stages|
  {
  }

  /** The index never falls below a previous index whose stage has already started. */
  lemma {:induction false} StageIndexKeepsStarted(stages: seq<Stage>, elapsed: real, current: int, n: nat)
    requires n <= |stages| && 0 <= current < n && Started(stages, current, elapsed)
    ensures current <= StageIndex(stages, elapsed, current, n)
  {
    if elapsed < stages[n - 1].startSec {
      StageIndexKeepsStarted(stages, elapsed, current, n - 1);
    }
  }

  /** `UpdateStageIndex`: scan the stage table from the last row down, stopping at the first started one. */
  method UpdateStageIndex(stages: seq<Stage>, elapsed: real, current: int) returns (idx: int)
    ensures idx == StageIndex(stages, elapsed, current, |stages|)
  {
    idx := current;
    var i := |stages| - 1;
    while i >= 0
      invariant -1 <= i < |stages|
      invariant StageIndex(stages, elapsed, current, |stages|) == StageIndex(stages, elapsed, current, i + 1)
      decreases i
    {
      if elapsed >= stages[i].startSec {
        idx := i;
        return;
      }
      i := i - 1;
    }
  }

  /** The k-th spawn-angle candidate, `Random.value * 2π`. */
  function Candidate(draws: nat -> real, k: nat): (a: real)
    ensures 0.0 <= draws(k) <= 1.0 ==> 0.0 <= a <= TwoPi
  {
    draws(k) * Pi * 2.0
  }

  /** The angle keeps at least `minSepRad` from the player. */
  predicate FarEnough(a: real, playerAngleRad: real, minSepRad: real)
  {
    Abs(DeltaAngleRad(a, playerAngleRad)) >= minSepRad
  }

  /**
   * The angle `DecideSpawnAngle` settles on from attempt `k` on: the first of
   * the candidates k..15 far enough from the player, otherwise the 17th draw,
   * taken unchecked.
   */
  function FirstFarCandidate(playerAngleRad: real, minSepRad: real, draws: nat -> real, k: nat): real
    requires k <= 16
    decreases 16 - k
  {
    if k == 16 then Candidate(draws, 16)
    else if FarEnough(Candidate(draws, k), playerAngleRad, minSepRad) then Candidate(draws, k)
    else FirstFarCandidate(playerAngleRad, minSepRad, draws, k + 1)
  }

  /**
   * `FirstFarCandidate` is the first far-enough candidate among k..15, every
   * earlier one being too close, or else the 17th draw with all of k..15 too
   * close.
   */
  lemma {:induction false} FirstFarCandidateIsFirst(playerAngleRad: real, minSepRad: real, draws: nat -> real, k: nat)
    requires k <= 16
    ensures var a := FirstFarCandidate(playerAngleRad, minSepRad, draws, k);
            (exists j :: k <= j < 16 && a == Candidate(draws, j) && FarEnough(a, playerAngleRad, minSepRad) &&
               forall i :: k <= i < j ==> !FarEnough(Candidate(draws, i), playerAngleRad, minSepRad)) ||
            (a == Candidate(draws, 16) &&
               forall i :: k <= i < 16 ==> !FarEnough(Candidate(draws, i), playerAngleRad, minSepRad))
    decreases 16 - k
  {
    if k < 16 && !FarEnough(Candidate(draws, k), playerAngleRad, minSepRad) {
      FirstFarCandidateIsFirst(playerAngleRad, minSepRad, draws, k + 1);
    }
  }

  /** Whenever some checked candidate is far enough, the chosen angle is far enough. */
  lemma {:induction false} FirstFarCandidateSeparated(playerAngleRad: real, minSepRad: real, draws: nat -> real, k: nat, j: nat)
    requires k <= j < 16 && FarEnough(Candidate(draws, j), playerAngleRad, minSepRad)
    ensures FarEnough(FirstFarCandidate(playerAngleRad, minSepRad, draws, k), playerAngleRad, minSepRad)
    decreases 16 - k
  {
    if !FarEnough(Candidate(draws, k), playerAngleRad, minSepRad) {
      FirstFarCandidateSeparated(playerAngleRad, minSepRad, draws, k + 1, j);
    }
  }

  /** `DecideSpawnAngle`: up to 16 tries for an angle far enough from the player, then one unchecked draw. */
  method DecideSpawnAngle(playerAngleRad: real, minSepRad: real, draws: nat -> real) returns (a: real)
    ensures a == FirstFarCandidate(playerAngleRad, minSepRad, draws, 0)
  {
    var i := 0;
    while i < 16
      invariant 0 <= i <= 16
      invariant FirstFarCandidate(playerAngleRad, minSepRad, draws, 0) == FirstFarCandidate(playerAngleRad, minSepRad, draws, i)
    {
      a := Candidate(draws, i);
      if FarEnough(a, playerAngleRad, minSepRad) {
        return;
      }
      i := i + 1;
    }
    a := Candidate(draws, 16);
  }

  /**
   * The factor `SpawnOne` applies to a stage's travel or telegraph time:
   * from 1 at no difficulty down to the configured minimum (clamped to
   * [0.1, 1]) at full difficulty.
   */
  function DurationScale(minScale: real, curve: real): (f: real)
    ensures Clamp(minScale, 0.1, 1.0) <= f <= 1.0
    ensures curve <= 0.0 ==> f == 1.0
    ensures curve >= 1.0 ==> f == Clamp(minScale, 0.1, 1.0)
  {
    Lerp(1.0, Clamp(minScale, 0.1, 1.0), curve)
  }

  /** The difficulty curve `Pow(Clamp01(difficultyT), travelDifficultyGamma)` that drives both factors. */
  function TimingCurve(cfg: Config, pow: (real, real) -> real, difficultyT: real): (c: real)
    ensures PowLaw(pow) && cfg.travelDifficultyGamma > 0.0 ==> 0.0 <= c <= 1.0
  {
    pow(Clamp01(difficultyT), cfg.travelDifficultyGamma)
  }

  /**
   * A stage duration scaled by `DurationScale` at the given point of the
   * curve, but never below `floor`; never longer than the stage's own duration
   * (or the floor).
   */
  function ScaledDuration(x: real, minScale: real, floor: real, curve: real): (d: real)
    requires floor >= 0.0
    ensures floor <= d <= Max(floor, x)
  {
    ScaledAtMost(x, DurationScale(minScale, curve));
    Max(floor, x * DurationScale(minScale, curve))
  }

  lemma MaxMonotone(c: real, a: real, b: real)
    requires a <= b
    ensures Max(c, a) <= Max(c, b)
  {
  }

  lemma ScaledAtMost(x: real, f: real)
    requires 0.1 <= f <= 1.0
    ensures x * f <= Max(0.0, x)
  {
    if x >= 0.0 {
      MulMonotone(x, f, 1.0);
    } else {
      MulMonotone(-x, 0.0, f);
    }
  }

  /** A later point on the difficulty curve never gives a longer scaled duration. */
  lemma ScaledDurationShrinks(x: real, minScale: real, floor: real, t1: real, t2: real)
    requires x >= 0.0 && floor >= 0.0 && t1 <= t2
    ensures ScaledDuration(x, minScale, floor, t2) <= ScaledDuration(x, minScale, floor, t1)
  {
    DurationScaleAntitone(minScale, t1, t2);
    ScaledDurationByFactor(x, minScale, floor, t1, t2);
  }

  /** The scaled duration follows the factor. */
  lemma ScaledDurationByFactor(x: real, minScale: real, floor: real, t1: real, t2: real)
    requires x >= 0.0 && floor >= 0.0
    requires DurationScale(minScale, t2) <= DurationScale(minScale, t1)
    ensures ScaledDuration(x, minScale, floor, t2) <= ScaledDuration(x, minScale, floor, t1)
  {
    ScaledMonotone(x, floor, DurationScale(minScale, t2), DurationScale(minScale, t1));
  }

  /** A later point on the curve never gives a larger factor. */
  lemma DurationScaleAntitone(minScale: real, t1: real, t2: real)
    requires t1 <= t2
    ensures DurationScale(minScale, t2) <= DurationScale(minScale, t1)
  {
    LerpAntitone(1.0, Clamp(minScale, 0.1, 1.0), t1, t2);
  }

  lemma ScaledMonotone(x: real, floor: real, f2: real, f1: real)
    requires x >= 0.0 && 0.0 <= f2 <= f1
    ensures Max(floor, x * f2) <= Max(floor, x * f1)
  {
    MulMonotone(x, f2, f1);
    MaxMonotone(floor, x * f2, x * f1);
  }

  /** The timing part of `SpawnOne`: (travel time, telegraph time) for a new arc. */
  function SpawnTiming(cfg: Config, pow: (real, real) -> real, difficultyT: real, stage: Stage): (r: (real, real))
    ensures r.0 >= 0.03 && r.1 >= 0.05
    ensures r.0 <= Max(0.03, stage.travelTimeSec) && r.1 <= Max(0.05, stage.telegraphTimeSec)
  {
    var t := TimingCurve(cfg, pow, difficultyT);
    (ScaledDuration(stage.travelTimeSec, cfg.travelTimeMinScale, 0.03, t),
     ScaledDuration(stage.telegraphTimeSec, cfg.telegraphTimeMinScale, 0.05, t))
  }

  /** Higher difficulty never lengthens the travel or telegraph time of a new arc. */
  lemma SpawnTimingShrinks(cfg: Config, pow: (real, real) -> real, d1: real, d2: real, stage: Stage)
    requires PowLaw(pow) && cfg.travelDifficultyGamma > 0.0 && d1 <= d2
    requires stage.travelTimeSec >= 0.0 && stage.telegraphTimeSec >= 0.0
    ensures SpawnTiming(cfg, pow, d2, stage).0 <= SpawnTiming(cfg, pow, d1, stage).0
    ensures SpawnTiming(cfg, pow, d2, stage).1 <= SpawnTiming(cfg, pow, d1, stage).1
  {
    var t1 := TimingCurve(cfg, pow, d1);
    var t2 := TimingCurve(cfg, pow, d2);
    assert t1 <= t2 by {
      assert 0.0 <= Clamp01(d1) <= Clamp01(d2) <= 1.0;
    }
    ScaledDurationShrinks(stage.travelTimeSec, cfg.travelTimeMinScale, 0.03, t1, t2);
    ScaledDurationShrinks(stage.telegraphTimeSec, cfg.telegraphTimeMinScale, 0.05, t1, t2);
  }

  /** Every arc ticked once by `dt` (`ObstacleArc.Tick` on each element). */
  function StepAll(ss: seq<ArcState>, dt: real): (r: seq<ArcState>)
    ensures |r| == |ss|
    ensures forall j :: 0 <= j < |ss| ==> r[j] == Step(ss[j], dt)
  {
    if ss == [] then [] else [Step(ss[0], dt)] + StepAll(ss[1..], dt)
  }

  /** The arcs that are not Dead, in their original order. */
  function Survivors(t: seq<ArcState>): (r: seq<ArcState>)
    ensures |r| <= |t|
  {
    if t == [] then []
    else (if t[0].phase != Dead then [t[0]] else []) + Survivors(t[1..])
  }

  /** Exactly the live arcs survive. */
  lemma {:induction false} SurvivorsMembers(t: seq<ArcState>)
    ensures forall a :: a in Survivors(t) <==> a in t && a.phase != Dead
  {
    if t != [] {
      SurvivorsMembers(t[1..]);
      assert t == [t[0]] + t[1..];
    }
  }

  /**
   * Filtering distributes over concatenation, so the survivors keep their
   * relative order.
   */
  lemma {:induction false} SurvivorsAppend(t: seq<ArcState>, u: seq<ArcState>)
    ensures Survivors(t + u) == Survivors(t) + Survivors(u)
  {
    if t == [] {
      assert t + u == u;
    } else {
      assert (t + u)[1..] == t[1..] + u;
      SurvivorsAppend(t[1..], u);
    }
  }

  /**
   * One step of the backwards reaping loop, on values: with the arcs below
   * `i + 1` untouched and the ones above already ticked and filtered, ticking
   * arc `i` and dropping it if dead leaves the arcs below `i` untouched and the
   * rest ticked and filtered.
   */
  lemma ReapStep(before: seq<ArcState>, ticked: seq<ArcState>, arcs: seq<ArcState>, i: nat)
    requires i < |before| == |ticked|
    requires arcs == before[..i + 1] + Survivors(ticked[i + 1..])
    ensures i < |arcs| && arcs[i] == before[i]
    ensures var a := arcs[i := ticked[i]];
            if ticked[i].phase == Dead then a[..i] + a[i + 1..] == before[..i] + Survivors(ticked[i..])
            else a == before[..i] + Survivors(ticked[i..])
  {
    var prefix := before[..i];
    var tail := Survivors(ticked[i + 1..]);
    assert before[..i + 1] == prefix + [before[i]];
    assert ticked[i..] == [ticked[i]] + ticked[i + 1..];
    assert Survivors(ticked[i..]) == (if ticked[i].phase != Dead then [ticked[i]] else []) + tail;
    var a := arcs[i := ticked[i]];
    assert a == prefix + [ticked[i]] + tail;
    if ticked[i].phase == Dead {
      assert a[..i] == prefix && a[i + 1..] == tail;
    } else {
      assert a == prefix + ([ticked[i]] + tail);
    }
  }

  /** Ticking every arc keeps the clamps of `Init`. */
  lemma StepAllWellFormed(ss: seq<ArcState>, dt: real)
    requires forall j :: 0 <= j < |ss| ==> WellFormed(ss[j])
    ensures forall j :: 0 <= j < |StepAll(ss, dt)| ==> WellFormed(StepAll(ss, dt)[j])
  {
    forall j | 0 <= j < |ss|
      ensures WellFormed(StepAll(ss, dt)[j])
    {
      StepWellFormed(ss[j], dt);
    }
  }

  /** The arc is fading out or already dead. */
  predicate FadingOrDead(s: ArcState)
  {
    s.phase == Fading || s.phase == Dead
  }

  /**
   * `after` is `ForceFadeAll(sec)` applied to the well-formed arcs `before`:
   * every live arc is force-faded with a fade time of `Max(0.01, sec)`, and
   * every dead arc is kept as it is.
   */
  ghost predicate FadedAll(before: seq<ArcState>, after: seq<ArcState>, sec: real)
  {
    && |after| == |before|
    && (forall i :: 0 <= i < |before| ==> WellFormed(before[i]))
    && (forall i :: 0 <= i < |before| && before[i].phase != Dead ==>
          after[i] == ForceFaded(before[i], Max(0.01, sec)))
    && (forall i :: 0 <= i < |before| && before[i].phase == Dead ==> after[i] == before[i])
  }

  /** After a fade-all every arc is fading or dead, and every live arc keeps its radius. */
  lemma FadedAllFadingOrDead(before: seq<ArcState>, after: seq<ArcState>, sec: real)
    requires FadedAll(before, after, sec)
    ensures forall i :: 0 <= i < |after| ==> FadingOrDead(after[i])
    ensures forall i :: 0 <= i < |after| && before[i].phase != Dead ==>
              after[i].phase == Fading && Radius(after[i]) == Radius(before[i])
  {
  }

  /** The result of the spawn-timer step: whether an arc is spawned, and the new timer. */
  datatype SpawnDecision = SpawnDecision(spawn: bool, timer: real)

  /**
   * The wait before the next spawn: the interval draw scaled from 1 down to
   * 0.55 as the difficulty rises, and never below 0.05 s.  It is never longer
   * than the draw (or 0.05 s).
   */
  function SpawnInterval(intervalDraw: real, difficultyT: real): (r: real)
    ensures 0.05 <= r <= Max(0.05, intervalDraw)
  {
    var scale := Lerp(1.0, 0.55, Clamp01(difficultyT));
    ScaledAtMost(intervalDraw, scale);
    Max(0.05, intervalDraw * scale)
  }

  /**
   * The spawn-timer step of `Tick`: nothing happens while the timer is still
   * positive; once it runs out, an arc is spawned below the cap and the timer
   * restarts from the scaled interval draw (at least 0.05 s); at the cap the
   * spawner retries after 0.05 s.
   */
  function SpawnStep(timer: real, dt: real, alive: int, allowed: int, intervalDraw: real, difficultyT: real): (d: SpawnDecision)
    ensures d.spawn <==> timer - dt <= 0.0 && alive < allowed
    ensures timer - dt > 0.0 ==> d.timer == timer - dt
    ensures timer - dt <= 0.0 ==> d.timer >= 0.05
    ensures timer - dt <= 0.0 && !d.spawn ==> d.timer == 0.05
    ensures d.spawn ==> d.timer == SpawnInterval(intervalDraw, difficultyT)
  {
    var t := timer - dt;
    if t <= 0.0 then
      if alive < allowed then SpawnDecision(true, SpawnInterval(intervalDraw, difficultyT))
      else SpawnDecision(false, 0.05)
    else SpawnDecision(false, t)
  }

  /** The arc `SpawnOne` creates at `centerAngleRad` for the given stage and difficulty. */
  function Spawned(cfg: Config, track: Option<real>, pow: (real, real) -> real, difficultyT: real,
                   stage: Stage, centerAngleRad: real): (a: ArcState)
    requires track.Some? ==> track.value >= 0.0
    ensures WellFormed(a) && a.phase == Telegraph && a.track == track && a.centerAngleRad == centerAngleRad
  {
    var timing := SpawnTiming(cfg, pow, difficultyT, stage);
    Initial(track, centerAngleRad, stage.arcSizeDeg, timing.1, timing.0,
            stage.stickTimeSec, stage.fadeOutSec,
            stage.startRadiusScale, stage.telegraphOffsetScale)
  }

  /**
   * The reaping loop of `Tick`: from the last arc down to the first, each arc
   * ticks and is removed if that left it Dead.
   */
  method TickAll(arcs: seq<ArcState>, dt: real) returns (live: seq<ArcState>)
    ensures live == Survivors(StepAll(arcs, dt))
  {
    ghost var ticked := StepAll(arcs, dt);
    live := arcs;
    var i := |live|;
    while i > 0
      invariant 0 <= i <= |arcs|
      invariant live == arcs[..i] + Survivors(ticked[i..])
      decreases i
    {
      i := i - 1;
      ReapStep(arcs, ticked, live, i);
      live := live[i := Step(live[i], dt)];
      if live[i].phase == Dead {
        live := live[..i] + live[i + 1..];
      }
    }
    assert ticked[0..] == ticked;
  }

  /** The spawner's clock, spawn timer, stage index and arcs, as a value. */
  datatype Frame = Frame(elapsed: real, spawnTimer: real, stageIndex: int, arcs: seq<ArcState>)

  /**
   * One `Tick` at difficulty `difficultyT`, on values: without a track or with
   * an empty stage table nothing changes; otherwise the clock advances, the
   * stage is selected, the spawn-timer step may add one arc away from the
   * player, and then every arc ticks and the dead ones are dropped.  The
   * stage index stays in the table, and no more arcs are left than were
   * there or than the cap allows.
   */
  function TickFrame(cfg: Config, track: Option<real>, pow: (real, real) -> real, difficultyT: real,
                     f: Frame, dt: real, playerAngleRad: real, intervalDraw: real, draws: nat -> real): (g: Frame)
    requires track.Some? ==> track.value >= 0.0
    requires 0 <= f.stageIndex && (|cfg.stages| > 0 ==> f.stageIndex < |cfg.stages|)
    ensures 0 <= g.stageIndex && (|cfg.stages| > 0 ==> g.stageIndex < |cfg.stages|)
    ensures track.None? || |cfg.stages| == 0 ==> g == f
    ensures track.Some? && |cfg.stages| > 0 ==>
              && g.elapsed == f.elapsed + dt
              && |g.arcs| <= MaxInt(|f.arcs|, CalcMaxConcurrentArcs(cfg, pow, difficultyT))
              && (forall i :: 0 <= i < |g.arcs| ==> g.arcs[i].phase != Dead)
  {
    if track.None? || |cfg.stages| == 0 then f
    else
      var elapsed := f.elapsed + dt;
      var idx := StageIndex(cfg.stages, elapsed, f.stageIndex, |cfg.stages|);
      StageIndexInBounds(cfg.stages, elapsed, f.stageIndex);
      var allowed := CalcMaxConcurrentArcs(cfg, pow, difficultyT);
      var decision := SpawnStep(f.spawnTimer, dt, |f.arcs|, allowed, intervalDraw, difficultyT);
      var born := Spawned(cfg, track, pow, difficultyT, cfg.stages[idx],
                          FirstFarCandidate(playerAngleRad, cfg.minSpawnSepFromPlayerDeg * Deg2Rad, draws, 0));
      var ticked := StepAll(f.arcs + (if decision.spawn then [born] else []), dt);
      SurvivorsMembers(ticked);
      Frame(elapsed, decision.timer, idx, Survivors(ticked))
  }

  class ObstacleSpawner {
    const cfg: Option<Config>
    const track: Option<real>
    const pow: (real, real) -> real
    var difficultyT: real
    var elapsed: real
    var arcs: seq<ArcState>
    var spawnTimer: real
    var currentStageIndex: int

    /** Every arc is well formed; the stage index points into the table. */
    ghost predicate Valid()
      reads this
    {
      && (forall i :: 0 <= i < |arcs| ==> WellFormed(arcs[i]) && arcs[i].track == track)
      && (track.Some? ==> track.value >= 0.0)
      && 0 <= currentStageIndex
      && (cfg.Some? && |cfg.value.stages| > 0 ==> currentStageIndex < |cfg.value.stages|)
    }

    /** Every arc is alive (dead ones are removed in the same frame they die). */
    predicate NoDeadArcs()
      reads this
    {
      forall i :: 0 <= i < |arcs| ==> arcs[i].phase != Dead
    }

    /** The clock, spawn timer, stage index and arcs, as a `Frame`. */
    function Snapshot(): Frame
      reads this
    {
      Frame(elapsed, spawnTimer, currentStageIndex, arcs)
    }

    constructor(cfg: Option<Config>, track: Option<real>, pow: (real, real) -> real)
      requires track.Some? ==> track.value >= 0.0
      ensures Valid() && NoDeadArcs()
      ensures this.cfg == cfg && this.track == track && this.pow == pow
      ensures arcs == [] && difficultyT == 0.0 && elapsed == 0.0 && spawnTimer == 0.0 && currentStageIndex == 0
    {
      this.cfg := cfg;
      this.track := track;
      this.pow := pow;
      difficultyT := 0.0;
      elapsed := 0.0;
      arcs := [];
      spawnTimer := 0.0;
      currentStageIndex := 0;
    }

    /** `ResetAll` (and `ClearAllNow`): the list is emptied and the clock, timer and stage index restart. */
    method ResetAll()
      requires Valid()
      modifies this
      ensures Valid() && NoDeadArcs()
      ensures arcs == [] && elapsed == 0.0 && spawnTimer == 0.0 && currentStageIndex == 0
      ensures difficultyT == old(difficultyT)
    {
      arcs := [];
      elapsed := 0.0;
      spawnTimer := 0.0;
      currentStageIndex := 0;
    }

    /** `ForceFadeAll(sec)`: every live arc starts a forced fade; dead ones are left alone. */
    method ForceFadeAll(sec: real)
      requires Valid()
      modifies this
      ensures Valid() && |arcs| == |old(arcs)|
      ensures forall i :: 0 <= i < |arcs| && old(arcs[i]).phase != Dead ==>
                arcs[i] == ForceFaded(old(arcs[i]), Max(0.01, sec))
      ensures forall i :: 0 <= i < |arcs| && old(arcs[i]).phase == Dead ==> arcs[i] == old(arcs[i])
      ensures forall i :: 0 <= i < |arcs| ==> FadingOrDead(arcs[i])
      ensures FadedAll(old(arcs), arcs, sec)
      ensures difficultyT == old(difficultyT) && elapsed == old(elapsed)
      ensures spawnTimer == old(spawnTimer) && currentStageIndex == old(currentStageIndex)
    {
      var i := 0;
      while i < |arcs|
        invariant 0 <= i <= |arcs| == |old(arcs)|
        invariant Valid()
        invariant forall j :: 0 <= j < i && old(arcs[j]).phase != Dead ==>
                    arcs[j] == ForceFaded(old(arcs[j]), Max(0.01, sec))
        invariant forall j :: 0 <= j < i && old(arcs[j]).phase == Dead ==> arcs[j] == old(arcs[j])
        invariant forall j :: i <= j < |arcs| ==> arcs[j] == old(arcs[j])
        invariant difficultyT == old(difficultyT) && elapsed == old(elapsed)
        invariant spawnTimer == old(spawnTimer) && currentStageIndex == old(currentStageIndex)
      {
        if arcs[i].phase != Dead {
          arcs := arcs[i := ForceFaded(arcs[i], Max(0.01, sec))];
        }
        i := i + 1;
      }
    }

    /** The timing part of `SpawnOne`: a new arc, set up from the stage and the difficulty, at the end of the list. */
    method SpawnOne(centerAngleRad: real, stage: Stage)
      requires Valid() && cfg.Some?
      modifies this`arcs
      ensures Valid()
      ensures arcs == old(arcs) + [Spawned(cfg.value, track, pow, difficultyT, stage, centerAngleRad)]
    {
      var timing := SpawnTiming(cfg.value, pow, difficultyT, stage);
      var arc := Initial(track, centerAngleRad, stage.arcSizeDeg, timing.1, timing.0,
                         stage.stickTimeSec, stage.fadeOutSec,
                         stage.startRadiusScale, stage.telegraphOffsetScale);
      arcs := arcs + [arc];
    }

    /**
     * The update-and-remove loop of `Tick`: every arc is ticked once and the
     * dead ones are removed, walking the list from the back so that removal
     * does not disturb the indices still to visit.
     */
    method TickAndReap(dt: real)
      requires Valid()
      modifies this`arcs
      ensures Valid() && NoDeadArcs()
      ensures arcs == Survivors(StepAll(old(arcs), dt))
      ensures difficultyT == old(difficultyT) && elapsed == old(elapsed)
      ensures spawnTimer == old(spawnTimer) && currentStageIndex == old(currentStageIndex)
    {
      var before := arcs;
      var live := TickAll(before, dt);
      ghost var ticked := StepAll(before, dt);
      StepAllWellFormed(before, dt);
      SurvivorsMembers(ticked);
      forall k | 0 <= k < |live|
        ensures live[k].phase != Dead && WellFormed(live[k]) && live[k].track == track
      {
        assert live[k] in ticked;
        var j :| 0 <= j < |ticked| && ticked[j] == live[k];
        StepIsPhaseMachine(before[j], dt);
      }
      arcs := live;
    }

    /** Spawns one arc at an angle chosen away from the player. */
    method SpawnAway(playerAngleRad: real, draws: nat -> real, stage: Stage)
      requires Valid() && cfg.Some?
      modifies this`arcs
      ensures Valid()
      ensures arcs == old(arcs) + [Spawned(cfg.value, track, pow, difficultyT, stage,
                                           FirstFarCandidate(playerAngleRad, cfg.value.minSpawnSepFromPlayerDeg * Deg2Rad, draws, 0))]
    {
      var center := DecideSpawnAngle(playerAngleRad, cfg.value.minSpawnSepFromPlayerDeg * Deg2Rad, draws);
      SpawnOne(center, stage);
    }

    /**
     * The spawn-timer part of `Tick`: count the timer down; once it runs out,
     * spawn one arc away from the player if fewer than the cap are alive and
     * restart the timer from the scaled interval draw, or retry after 0.05 s.
     */
    method RunSpawnTimer(dt: real, playerAngleRad: real, intervalDraw: real, draws: nat -> real, stage: Stage)
      requires Valid() && cfg.Some?
      modifies this`spawnTimer, this`arcs
      ensures Valid()
      ensures var decision := SpawnStep(old(spawnTimer), dt, |old(arcs)|,
                                        CalcMaxConcurrentArcs(cfg.value, pow, difficultyT), intervalDraw, difficultyT);
              && spawnTimer == decision.timer
              && arcs == old(arcs) + (if decision.spawn
                                      then [Spawned(cfg.value, track, pow, difficultyT, stage,
                                                    FirstFarCandidate(playerAngleRad, cfg.value.minSpawnSepFromPlayerDeg * Deg2Rad, draws, 0))]
                                      else [])
    {
      ghost var decision := SpawnStep(spawnTimer, dt, |arcs|, CalcMaxConcurrentArcs(cfg.value, pow, difficultyT),
                                      intervalDraw, difficultyT);
      spawnTimer := spawnTimer - dt;
      if spawnTimer <= 0.0 {
        var alive := |arcs|;
        var allowed := CalcMaxConcurrentArcs(cfg.value, pow, difficultyT);
        if alive < allowed {
          spawnTimer := SpawnInterval(intervalDraw, difficultyT);
          assert decision == SpawnDecision(true, spawnTimer);
          SpawnAway(playerAngleRad, draws, stage);
        } else {
          spawnTimer := 0.05;
          assert decision == SpawnDecision(false, 0.05);
        }
      } else {
        assert decision == SpawnDecision(false, spawnTimer);
      }
    }

    /**
     * The configured part of `Tick`: advance the clock, select the stage, run
     * the spawn-timer step, then tick and reap the arcs.
     */
    method Advance(dt: real, playerAngleRad: real, intervalDraw: real, draws: nat -> real)
      requires Valid() && cfg.Some? && track.Some? && |cfg.value.stages| > 0
      modifies this`elapsed, this`currentStageIndex, this`spawnTimer, this`arcs
      ensures Valid() && NoDeadArcs()
      ensures var allowed := CalcMaxConcurrentArcs(cfg.value, pow, difficultyT);
              var decision := SpawnStep(old(spawnTimer), dt, |old(arcs)|, allowed, intervalDraw, difficultyT);
              var born := Spawned(cfg.value, track, pow, difficultyT, cfg.value.stages[currentStageIndex],
                                  FirstFarCandidate(playerAngleRad, cfg.value.minSpawnSepFromPlayerDeg * Deg2Rad, draws, 0));
              && elapsed == old(elapsed) + dt
              && currentStageIndex == StageIndex(cfg.value.stages, elapsed, old(currentStageIndex), |cfg.value.stages|)
              && spawnTimer == decision.timer
              && arcs == Survivors(StepAll(old(arcs) + (if decision.spawn then [born] else []), dt))
              && |arcs| <= MaxInt(|old(arcs)|, allowed)
    {
      var stages := cfg.value.stages;
      elapsed := elapsed + dt;
      currentStageIndex := UpdateStageIndex(stages, elapsed, currentStageIndex);
      StageIndexInBounds(stages, elapsed, old(currentStageIndex));
      var stage := stages[currentStageIndex];
      RunSpawnTimer(dt, playerAngleRad, intervalDraw, draws, stage);
      ghost var grown := arcs;
      assert |grown| <= MaxInt(|old(arcs)|, CalcMaxConcurrentArcs(cfg.value, pow, difficultyT));
      TickAndReap(dt);
    }

    /**
     * One frame: with a configuration, a track and a non-empty stage table,
     * advance the clock, select the stage, run the spawn-timer step (spawning
     * at most one arc, at an angle chosen away from the player), then tick and
     * reap the arcs.  Without them nothing changes.
     */
    method Tick(dt: real, playerAngleRad: real, intervalDraw: real, draws: nat -> real)
      requires Valid()
      modifies this
      ensures Valid() && difficultyT == old(difficultyT)
      ensures (cfg.None? || track.None? || |cfg.value.stages| == 0) ==>
                && arcs == old(arcs) && elapsed == old(elapsed) && spawnTimer == old(spawnTimer)
                && currentStageIndex == old(currentStageIndex)
      ensures cfg.Some? && track.Some? && |cfg.value.stages| > 0 ==>
                var allowed := CalcMaxConcurrentArcs(cfg.value, pow, difficultyT);
                var decision := SpawnStep(old(spawnTimer), dt, |old(arcs)|, allowed, intervalDraw, difficultyT);
                var born := Spawned(cfg.value, track, pow, difficultyT, cfg.value.stages[currentStageIndex],
                                    FirstFarCandidate(playerAngleRad, cfg.value.minSpawnSepFromPlayerDeg * Deg2Rad, draws, 0));
                && NoDeadArcs()
                && elapsed == old(elapsed) + dt
                && currentStageIndex == StageIndex(cfg.value.stages, elapsed, old(currentStageIndex), |cfg.value.stages|)
                && spawnTimer == decision.timer
                && arcs == Survivors(StepAll(old(arcs) + (if decision.spawn then [born] else []), dt))
                && |arcs| <= MaxInt(|old(arcs)|, allowed)
      ensures cfg.Some? ==>
                Snapshot() == TickFrame(cfg.value, track, pow, difficultyT, old(Snapshot()), dt,
                                        playerAngleRad, intervalDraw, draws)
    {
      if cfg.None? || track.None? || |cfg.value.stages| == 0 {
        return;
      }
      ghost var f := Frame(elapsed, spawnTimer, currentStageIndex, arcs);
      ghost var next := TickFrame(cfg.value, track, pow, difficultyT, f, dt, playerAngleRad, intervalDraw, draws);
      Advance(dt, playerAngleRad, intervalDraw, draws);
      assert currentStageIndex == next.stageIndex;
      assert arcs == next.arcs;
    }
  }
}
