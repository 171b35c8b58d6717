# FLIP-ORBIT simulation core in Dafny

FLIP-ORBIT is a one-button dodging game played on a single circular track.
The player orbits the circle at a speed that grows with the score. A press
flips the direction of travel. Obstacle arcs appear on the circle, and each
one runs through a five-phase life:

- Telegraph: it is announced.
- Travelling: it flies in.
- Stick: it sits on the track.
- Fading: it disappears.
- Dead.

Touching a dangerous arc ends the game. Passing close to a Stick arc
("grazing") scores points. A pickup orb placed in the widest free gap scores
points times a chain multiplier.

This project models the frame-stepped simulation behind that game, one
Dafny module per source file:

| module (file) | models |
|---|---|
| `Mathf` (`mathf.dfy`) | the Unity `Mathf` helpers the game uses (`Max`, `Min`, `Clamp01`, `Clamp`, `Lerp`, banker's `RoundToInt`) |
| `Angles` (`angles.dfy`) | `WrapRad`, `DeltaAngleRad` (on top of `Mathf.DeltaAngle`) and `NormalizeInterval`. PlayerController, ObstacleArc, ObstacleSpawner and GameManager each carry an identical private copy; the model defines them once. |
| `FlipOrbitConfig` (`flip_orbit_config.dfy`) | the configuration asset and its three difficulty curves |
| `Players` (`players.dfy`) | `PlayerController`: a class over angle, direction and speed |
| `Orbs` (`orbs.dfy`) | `OrbManager`: a class over the live flag, the timer and the one-shot timeout edge |
| `Arcs` (`arcs.dfy`) | `ObstacleArc`: a class whose mutators are specified by pure functions on an `ArcState` value |
| `Spawning` (`spawning.dfy`) | `ObstacleSpawner`: a class owning the arc list; it spawns, ticks and reaps in place |
| `Gaps` (`gaps.dfy`) | `FindWidestGapMidAngle`: split wrapped intervals, sort, merge, pick the first widest gap |
| `Session` (`session.dfy`) | `GameManager`: the state machine, flip buffer, swept hit test, grazing, pickups and the per-frame tick |

Modelling choices:

- **Numbers.** Floats are modelled as reals. `Mathf.PI` is its
  single-precision value 3.14159274. `Deg2Rad` and `Rad2Deg` are exact
  inverses.
- **Angles.** C#'s `%` truncates toward zero; the model writes this out
  explicitly as `FModTwoPi`.
- **Pow.** `Mathf.Pow` is a parameter `pow`. The predicate `PowLaw` states
  what the curves need of it: for a positive exponent, it maps [0, 1] into
  [0, 1], is monotone, and fixes 0 and 1.
- **Random draws.** They are parameters:
  - the spawn-interval draw;
  - a stream `nat -> real` of `Random.value` draws for the spawn angle;
  - the orb jitter draws.
- **Arcs.** The spawner's `List<ObstacleArc>` is a `seq<ArcState>` field.
  `ObstacleArc.Tick` and `ForceFade` on the class are proved equal to the
  functions `Step` and `ForceFaded` on that value. The spawner's in-place
  loop is proved to leave exactly `Survivors(StepAll(arcs, dt))`.
- **Sweep direction.** `TickPlaying` runs the hit test exactly as written,
  with the sweep `DeltaAngleRad(currAngle, prevAngle)`. That sweep runs away
  from the player's new position (see Findings). `TickPlayingForward` is the
  same frame with the sweep from the old angle to the new one.

## Model

| member | source | states |
|---|---|---|
| `Mathf.Clamp01` | Assets/Scripts/FlipOrbitConfig.cs:122 | result in [0, 1]; identity on [0, 1]; 0 below, 1 above |
| `Mathf.Lerp` | Assets/Scripts/FlipOrbitConfig.cs:130 | result between the two ends; the first end for t <= 0, the second for t >= 1 |
| `Mathf.LerpMonotone` | Assets/Scripts/FlipOrbitConfig.cs:130 | with a <= b, a larger t never gives a smaller value |
| `Mathf.LerpAntitone` | Assets/Scripts/ObstacleSpawner.cs:112-113 | with b <= a, a larger t never gives a larger value |
| `Mathf.RoundToInt` | Assets/Scripts/FlipOrbitConfig.cs:137 | the result is within 1/2 of x, and exact on whole numbers |
| `Mathf.RoundToIntMonotone` | Assets/Scripts/FlipOrbitConfig.cs:137 | rounding is monotone |
| `Mathf.RoundScaledAtLeast` | Assets/Scripts/GameManager.cs:498 | a non-negative integer times a factor of at least 1 rounds to at least that integer |
| `Mathf.RoundScaledMonotone` | Assets/Scripts/GameManager.cs:498 | a non-negative integer times a larger factor never rounds lower |
| `Angles.Truncate` | Assets/Scripts/PlayerController.cs:91 | the integer part toward zero that C#'s float `%` uses |
| `Angles.FModTwoPi` | Assets/Scripts/PlayerController.cs:91 | C# float `%` by 2π: the remainder keeps the dividend's sign, with magnitude below 2π, and equals a minus a truncated multiple of 2π |
| `Angles.WrapRad` | Assets/Scripts/PlayerController.cs:88-94 | the result is in [0, 2π) and differs from the input by a whole number of turns |
| `Angles.WrapRadIdempotent` | Assets/Scripts/PlayerController.cs:88-94 | wrapping twice equals wrapping once |
| `Angles.WrapRadFixesCircle` | Assets/Scripts/PlayerController.cs:88-94 | WrapRad(a) == a exactly when a is in [0, 2π) |
| `Angles.WrapRadPeriodic` | Assets/Scripts/GameManager.cs:648-654 | adding whole turns does not change the wrapped angle |
| `Angles.Repeat360` | Assets/Scripts/GameManager.cs:658 | `Mathf.Repeat(t, 360)`: result in [0, 360), t minus a floored multiple of 360 |
| `Angles.DeltaAngleDeg` | Assets/Scripts/GameManager.cs:658 | `Mathf.DeltaAngle(current, target)`: in (-180, 180], and target - current up to whole turns of 360 |
| `Angles.DeltaAngleRad` | Assets/Scripts/GameManager.cs:656-659 | in (-π, π], and turning a by it lands on b: WrapRad(a + r) == WrapRad(b) |
| `Angles.DeltaToRadians` | Assets/Scripts/ObstacleArc.cs:250-253 | converting the degree difference back to radians stays in (-π, π] and lands on b |
| `Angles.DeltaAngleRadUnique` | Assets/Scripts/GameManager.cs:656-659 | any r in (-π, π] that carries a onto b is DeltaAngleRad(a, b): the partner characterisation |
| `Angles.WithinArc` | Assets/Scripts/ObstacleArc.cs:121-122 | \|DeltaAngleRad(p, c)\| <= w exactly when some offset in [-w, w] rotates c onto p (both directions) |
| `Angles.DegreesRoundTrip` | Assets/Scripts/GameManager.cs:658 | radians -> degrees -> radians is exact over the reals |
| `Angles.NormalizeInterval` | Assets/Scripts/GameManager.cs:661-667 | both ends wrapped into [0, 2π) on the same points of the circle; `wrapped` exactly when the end is below the start |
| `FlipOrbitConfig.ScoreProgress` | Assets/Scripts/FlipOrbitConfig.cs:122 | the normalised score is in [0, 1]: 0 for score <= 0 and 1 from max(1, scoreForMaxSpeed) on (the divisor is at least 1) |
| `FlipOrbitConfig.ScoreProgressMonotone` | Assets/Scripts/FlipOrbitConfig.cs:128 | the normalised score is nondecreasing in the score |
| `FlipOrbitConfig.CalcDifficultyT` | Assets/Scripts/FlipOrbitConfig.cs:120-124 | pow(Clamp01(score / max(1, scoreForMaxSpeed)), gamma) lies in [0, 1] whenever pow obeys `PowLaw` and gamma > 0; its ends and its monotonicity are the next two rows |
| `FlipOrbitConfig.CalcDifficultyTBounds` | Assets/Scripts/FlipOrbitConfig.cs:120-124 | the difficulty is in [0, 1], 0 at score <= 0 and 1 at score >= max(1, scoreForMaxSpeed) |
| `FlipOrbitConfig.CalcDifficultyTMonotone` | Assets/Scripts/FlipOrbitConfig.cs:120-124 | a higher score never lowers the difficulty |
| `FlipOrbitConfig.CalcAngularSpeedDegPerSec` | Assets/Scripts/FlipOrbitConfig.cs:126-131 | the speed lies between the configured minimum and maximum speeds |
| `FlipOrbitConfig.CalcAngularSpeedEnds` | Assets/Scripts/FlipOrbitConfig.cs:126-131 | the speed is the minimum at score <= 0 and the maximum at score >= max(1, scoreForMaxSpeed) |
| `FlipOrbitConfig.CalcAngularSpeedMonotone` | Assets/Scripts/FlipOrbitConfig.cs:126-131 | with min <= max, the speed never drops as the score grows |
| `FlipOrbitConfig.CalcMaxConcurrentArcs` | Assets/Scripts/FlipOrbitConfig.cs:133-138 | whenever max(base, max) >= 1, the cap is an integer in [1, max(base, max)] for every difficulty |
| `FlipOrbitConfig.CalcMaxConcurrentArcsEnds` | Assets/Scripts/FlipOrbitConfig.cs:133-138 | the cap is the base value at difficulty <= 0 and the maximum value at difficulty >= 1 |
| `FlipOrbitConfig.CalcMaxConcurrentArcsMonotone` | Assets/Scripts/FlipOrbitConfig.cs:133-138 | with base <= max, the cap never shrinks as the difficulty rises |
| `Players.PlayerController.constructor` | Assets/Scripts/PlayerController.cs:13-15 | serialized defaults: angle 0, dir +1, 90 deg/s; valid |
| `Players.PlayerController.SetAngularSpeed` | Assets/Scripts/PlayerController.cs:56 | stores max(0, degPerSec), so the speed is never negative |
| `Players.PlayerController.ResetPlayer` | Assets/Scripts/PlayerController.cs:58-63 | angle := start, dir := +1; the speed is untouched (outside the frame) |
| `Players.PlayerController.Flip` | Assets/Scripts/PlayerController.cs:65 | dir is negated and stays in {+1, -1}; two flips restore it |
| `Players.PlayerController.StepRad` | Assets/Scripts/PlayerController.cs:70-71 | with speed >= 0 and dt >= 0 the step is forward (>= 0) for dir +1 and backward (<= 0) for dir -1 |
| `Players.PlayerController.Tick` | Assets/Scripts/PlayerController.cs:67-73 | with a track: angle := WrapRad(angle + dir·speed·dt·Deg2Rad), in [0, 2π); without one: no change; dir and speed never change |
| `Orbs.OrbManager.constructor` | Assets/Scripts/OrbManager.cs:14-21 | dead, timer 0, angle 0, no pending timeout edge |
| `Orbs.OrbManager.SpawnAtAngle` | Assets/Scripts/OrbManager.cs:61-68 | alive at the given angle with timer 0 and no pending edge |
| `Orbs.OrbManager.Kill` | Assets/Scripts/OrbManager.cs:70-74 | dead with no pending edge; angle and timer kept |
| `Orbs.OrbManager.ResetAll` | Assets/Scripts/OrbManager.cs:76-81 | dead with no pending edge and timer 0 |
| `Orbs.OrbManager.Tick` | Assets/Scripts/OrbManager.cs:83-93 | a dead orb is unchanged; a live one ages by dt, stays alive exactly while timer < lifetime, and arms the edge exactly when it dies |
| `Orbs.OrbManager.ConsumeJustTimedOut` | Assets/Scripts/OrbManager.cs:95-103 | returns whether the edge was pending, and clears it, so the next call returns false |
| `Arcs.NextPhase` | Assets/Scripts/ObstacleArc.cs:98-112 | each live phase advances by exactly one rank; Dead stays Dead |
| `Arcs.DangerousIn` | Assets/Scripts/ObstacleArc.cs:150-165 | the mode table: a phase dangerous in any mode is not Dead, and Stick is dangerous in every mode |
| `Arcs.DangerousModesNested` | Assets/Scripts/ObstacleArc.cs:150-165 | Dead is never dangerous; Stick always is; StickOnly ⊆ TravelAndStick ⊆ TelegraphTravelStick ⊆ AllPhasesIncludingFade, and the last is exactly "not Dead" |
| `Arcs.Initial` | Assets/Scripts/ObstacleArc.cs:58-88 | half width = Deg2Rad·\|size\|/2; the clamps telegraph >= 0.05, travel >= 0.01, stick >= 0, fade >= 0.01, startRadiusScale >= 1.25, telegraphOffsetScale >= 1.10, each the input when the input already meets it; Telegraph at time 0, not forced |
| `Arcs.Step` | Assets/Scripts/ObstacleArc.cs:93-115 | one tick keeps the arc's set-up and either stays in the phase or moves to `NextPhase`; the exact transition rule is `StepIsPhaseMachine` |
| `Arcs.StepIsPhaseMachine` | Assets/Scripts/ObstacleArc.cs:93-112 | Dead is unchanged. Otherwise there is at most one forward transition, taken exactly when timer + dt reaches the phase's duration. The timer grows by dt, or restarts at 0 on the first three transitions. The set-up never changes. |
| `Arcs.RunIsMonotone` | Assets/Scripts/ObstacleArc.cs:93-112 | over any tick sequence the phase rank never decreases and grows by at most one per tick; the set-up is kept |
| `Arcs.DeadIsAbsorbing` | Assets/Scripts/ObstacleArc.cs:95 | from Dead, any number of ticks changes nothing |
| `Arcs.StepWellFormed` | Assets/Scripts/ObstacleArc.cs:93-112 | ticks preserve the clamps of `Init` |
| `Arcs.SmoothStep` | Assets/Scripts/ObstacleArc.cs:207 | the ease 3t²-2t³ maps [0, 1] into [0, 1] |
| `Arcs.Radius` | Assets/Scripts/ObstacleArc.cs:197-218 | in Stick the radius is the track radius; the other phases are stated by `TravellingRadiusBounds` and `RadiusByPhase` |
| `Arcs.TravellingRadiusBounds` | Assets/Scripts/ObstacleArc.cs:204-209 | while travelling the radius lies in [baseR, baseR·startRadiusScale] |
| `Arcs.RadiusByPhase` | Assets/Scripts/ObstacleArc.cs:197-218 | Telegraph: baseR·telegraphOffsetScale; Stick and unforced Fading: baseR; forced Fading: the captured radius |
| `Arcs.ForceFaded` | Assets/Scripts/ObstacleArc.cs:174-183 | from any phase: Fading, timer 0, fadeTime = max(0.01, sec); same set-up; the radius is the same before and after |
| `Arcs.ForceFadedThenDies` | Assets/Scripts/ObstacleArc.cs:109-110 | a force-faded arc is Dead after one tick of at least its new fade time |
| `Arcs.Distance` | Assets/Scripts/ObstacleArc.cs:121 | \|DeltaAngleRad(angle, centre)\| lies in [0, π] |
| `Arcs.HitsExactAt` | Assets/Scripts/ObstacleArc.cs:134-139 | an exact hit needs a live (non-Dead) arc with a non-negative half width |
| `Arcs.HitsAt` | Assets/Scripts/ObstacleArc.cs:142-147 | a padded hit needs a live arc; an exact hit is a padded hit for every pad >= 0 |
| `Arcs.HitsNeedDanger` | Assets/Scripts/ObstacleArc.cs:134-147 | a phase-aware hit (exact or padded) implies the arc is dangerous in the mode; a Dead arc is never hit |
| `Arcs.ExactHitImpliesPadded` | Assets/Scripts/ObstacleArc.cs:134-147 | an exact hit is a padded hit for any pad >= 0; a wider pad keeps a hit; the exact test is the padded test with pad 0 |
| `Arcs.ExactHitIsOnArc` | Assets/Scripts/ObstacleArc.cs:134-139 | for an arc narrower than half a turn, an exact hit means dangerous and some offset within the half width carries the centre onto the angle (both directions) |
| `Arcs.EdgeDistanceDeg` | Assets/Scripts/ObstacleArc.cs:167-171 | >= 0; 0 exactly when the distance to the centre is within the half width; otherwise the excess distance in degrees |
| `Arcs.BaseRadius` | Assets/Scripts/ObstacleArc.cs:199 | the radius an arc is drawn around: 3 when the arc has no track, and never negative when the track radius is not |
| `Arcs.ObstacleArc.Init` | Assets/Scripts/ObstacleArc.cs:41-91 | the new arc's state is `Initial(...)` of its arguments |
| `Arcs.ObstacleArc.Tick` | Assets/Scripts/ObstacleArc.cs:93-115 | the new state is `Step(old state, dt)` (see `StepIsPhaseMachine`) |
| `Arcs.ObstacleArc.ForceFade` | Assets/Scripts/ObstacleArc.cs:174-183 | the new state is `ForceFaded(old state, sec)` (see `ForceFaded`) |
| `Arcs.ObstacleArc.CurrentRadius` | Assets/Scripts/ObstacleArc.cs:197-218 | in Stick the track radius; while travelling between the track radius and the track radius times startRadiusScale |
| `Arcs.ObstacleArc.IsAlive` | Assets/Scripts/ObstacleArc.cs:38 | alive exactly when dangerous in the widest mode (every phase but Dead) |
| `Arcs.ObstacleArc.IsStick` | Assets/Scripts/ObstacleArc.cs:39 | a Stick arc is alive and dangerous even in the narrowest mode, StickOnly |
| `Arcs.ObstacleArc.IsDangerous` | Assets/Scripts/ObstacleArc.cs:150-165 | a Dead arc is never dangerous; a Stick arc is dangerous in every mode |
| `Arcs.ObstacleArc.HitsExact` | Assets/Scripts/ObstacleArc.cs:118-123 | a hit only in Stick, that is only when dangerous under StickOnly |
| `Arcs.ObstacleArc.Hits` | Assets/Scripts/ObstacleArc.cs:126-131 | a hit only in Stick; an exact hit is a padded hit for every pad >= 0 |
| `Arcs.ObstacleArc.HitsExactPhaseAware` | Assets/Scripts/ObstacleArc.cs:134-139 | a hit only when the arc is dangerous in the mode |
| `Arcs.ObstacleArc.HitsPhaseAware` | Assets/Scripts/ObstacleArc.cs:142-147 | a hit only when the arc is dangerous in the mode; an exact phase-aware hit is a padded one for every pad >= 0 |
| `Arcs.ObstacleArc.StickOnlyTestsAgree` | Assets/Scripts/ObstacleArc.cs:118-131 | `HitsExact`/`Hits` coincide with the phase-aware tests under StickOnly |
| `Spawning.StageIndex` | Assets/Scripts/ObstacleSpawner.cs:98-106 | the largest started stage index, or the previous index when no stage has started |
| `Spawning.StageIndexInBounds` | Assets/Scripts/ObstacleSpawner.cs:98-106 | the chosen index stays in bounds when the previous one was |
| `Spawning.StageIndexKeepsStarted` | Assets/Scripts/ObstacleSpawner.cs:98-106 | the index never falls below a previous index whose stage has started |
| `Spawning.UpdateStageIndex` | Assets/Scripts/ObstacleSpawner.cs:98-106 | the backwards scan with `break` returns `StageIndex` |
| `Spawning.Candidate` | Assets/Scripts/ObstacleSpawner.cs:147-150 | a `Random.value` draw in [0, 1] gives a candidate angle in [0, 2π] |
| `Spawning.FirstFarCandidateIsFirst` | Assets/Scripts/ObstacleSpawner.cs:143-151 | the chosen angle is the first of candidates k..15 that is at least minSep from the player, with all earlier ones too close; otherwise the 17th draw, unchecked, with all of k..15 too close |
| `Spawning.FirstFarCandidateSeparated` | Assets/Scripts/ObstacleSpawner.cs:143-151 | if any checked candidate is far enough, the chosen angle is far enough |
| `Spawning.DecideSpawnAngle` | Assets/Scripts/ObstacleSpawner.cs:143-151 | the loop returns `FirstFarCandidate(..., 0)` |
| `Spawning.TimingCurve` | Assets/Scripts/ObstacleSpawner.cs:111 | with `pow` obeying `PowLaw` and a positive gamma, the curve value that drives both duration factors is in [0, 1] |
| `Spawning.DurationScale` | Assets/Scripts/ObstacleSpawner.cs:112-113 | the factor lies in [clamp(minScale, 0.1, 1), 1]: 1 at curve 0 and the clamped minimum at curve 1 |
| `Spawning.ScaledDuration` | Assets/Scripts/ObstacleSpawner.cs:115-116 | the scaled time is at least the floor and at most max(floor, stage time) |
| `Spawning.DurationScaleAntitone` | Assets/Scripts/ObstacleSpawner.cs:112-113 | a later point on the curve never gives a larger factor |
| `Spawning.ScaledDurationByFactor` | Assets/Scripts/ObstacleSpawner.cs:115-116 | a smaller factor never gives a longer scaled time |
| `Spawning.ScaledDurationShrinks` | Assets/Scripts/ObstacleSpawner.cs:111-116 | a later point on the curve never gives a longer scaled time |
| `Spawning.SpawnTiming` | Assets/Scripts/ObstacleSpawner.cs:111-116 | travel >= 0.03 and telegraph >= 0.05, each at most max(floor, the stage's own time) |
| `Spawning.SpawnTimingShrinks` | Assets/Scripts/ObstacleSpawner.cs:111-116 | higher difficulty never lengthens the travel or telegraph time |
| `Spawning.StepAll` | Assets/Scripts/ObstacleSpawner.cs:89 | every arc is ticked once, positions kept |
| `Spawning.Survivors` | Assets/Scripts/ObstacleSpawner.cs:85-95 | reaping never lengthens the list; which arcs survive and in what order are the next two rows |
| `Spawning.SurvivorsMembers` | Assets/Scripts/ObstacleSpawner.cs:85-95 | exactly the non-Dead arcs survive the reap |
| `Spawning.SurvivorsAppend` | Assets/Scripts/ObstacleSpawner.cs:85-95 | the filter distributes over concatenation, so survivors keep their relative order |
| `Spawning.ReapStep` | Assets/Scripts/ObstacleSpawner.cs:87-94 | one backwards iteration (tick arc i, `RemoveAt(i)` if dead) preserves "below i untouched, above i ticked and filtered" |
| `Spawning.StepAllWellFormed` | Assets/Scripts/ObstacleSpawner.cs:89 | ticking every arc preserves the `Init` clamps |
| `Spawning.SpawnInterval` | Assets/Scripts/ObstacleSpawner.cs:70-72 | the next wait is at least 0.05 s and never longer than max(0.05, the draw) |
| `Spawning.SpawnStep` | Assets/Scripts/ObstacleSpawner.cs:61-82 | spawns exactly when the decremented timer is <= 0 and alive < allowed. Otherwise the timer is the decremented value while still running, or exactly 0.05 at the cap. After a spawn it is the scaled draw `SpawnInterval`, so at least 0.05. |
| `Spawning.Spawned` | Assets/Scripts/ObstacleSpawner.cs:108-141 | the new arc is well formed, in Telegraph, at the chosen centre and on the spawner's track |
| `Spawning.TickAll` | Assets/Scripts/ObstacleSpawner.cs:85-95 | the reverse loop with removal leaves exactly `Survivors(StepAll(arcs, dt))` |
| `Spawning.ObstacleSpawner.constructor` | Assets/Scripts/ObstacleSpawner.cs:21-29 | no arcs, difficulty, clock, timer and stage index all 0 |
| `Spawning.ObstacleSpawner.ResetAll` | Assets/Scripts/ObstacleSpawner.cs:31-38 | the list is emptied; elapsed, spawnTimer and the stage index become 0 |
| `Spawning.ObstacleSpawner.ForceFadeAll` | Assets/Scripts/ObstacleSpawner.cs:42-49 | every non-Dead arc becomes `ForceFaded(arc, max(0.01, sec))`, Dead arcs are unchanged, so all are Fading or Dead; the length and the other fields are kept |
| `Spawning.FadedAllFadingOrDead` | Assets/Scripts/ObstacleSpawner.cs:42-49 | after a fade-all every arc is Fading or Dead, and every arc that was alive is Fading at the radius it had |
| `Spawning.ObstacleSpawner.SpawnOne` | Assets/Scripts/ObstacleSpawner.cs:108-141 | appends exactly the arc `Spawned(...)` |
| `Spawning.ObstacleSpawner.TickAndReap` | Assets/Scripts/ObstacleSpawner.cs:85-95 | arcs := Survivors(StepAll(arcs, dt)); no Dead arc is left; the other fields are kept |
| `Spawning.ObstacleSpawner.SpawnAway` | Assets/Scripts/ObstacleSpawner.cs:74-75 | appends the arc spawned at `FirstFarCandidate` of the draws |
| `Spawning.ObstacleSpawner.RunSpawnTimer` | Assets/Scripts/ObstacleSpawner.cs:61-82 | timer and list follow `SpawnStep`: one arc appended exactly when it spawns |
| `Spawning.ObstacleSpawner.Advance` | Assets/Scripts/ObstacleSpawner.cs:53-95 | the configured branch of `Tick`: clock += dt, stage by `StageIndex`, timer by `SpawnStep`, arcs := survivors of the ticked old list plus the spawned arc, if any; no Dead arc; the count never exceeds max(old count, cap) |
| `Spawning.ObstacleSpawner.Tick` | Assets/Scripts/ObstacleSpawner.cs:51-96 | with no config, no track or no stages, no change. Otherwise the clock advances by dt and the stage follows `StageIndex`. The timer follows `SpawnStep`. The arcs become the survivors of ticking the old list plus at most one new arc, spawned at `FirstFarCandidate` of the draws. No Dead arc is left, and the count never exceeds max(old count, cap). With a config, the clock, timer, stage and arcs taken together are `TickFrame` of the old ones, which is how the session states the spawner step. |
| `Spawning.TickFrame` | Assets/Scripts/ObstacleSpawner.cs:51-96 | one spawner tick on values. The stage index stays in the table. Without a track or stages nothing changes. Otherwise the clock advances by dt, no Dead arc is left, and no more arcs remain than were there or than the cap allows. |
| `Gaps.ArcBlocks` | Assets/Scripts/GameManager.cs:551-556 | one or two blocks, all inside [0, 2π] |
| `Gaps.BlocksInCircle` | Assets/Scripts/GameManager.cs:546-559 | all blocks lie in [0, 2π]; there are at least as many blocks as arcs, and none exactly when there are no arcs |
| `Gaps.CollectBlocks` | Assets/Scripts/GameManager.cs:546-557 | the loop returns `Blocks(arcs)` |
| `Gaps.InsertPermutes` | Assets/Scripts/GameManager.cs:561 | insertion adds exactly one block (multiset) |
| `Gaps.InsertSorted` | Assets/Scripts/GameManager.cs:561 | insertion into a sorted list keeps it sorted by start |
| `Gaps.SortByFromCorrect` | Assets/Scripts/GameManager.cs:561 | `SortByFrom` (a stable insertion sort standing for `List.Sort`) returns a permutation of its input, sorted by start |
| `Gaps.PermutationInCircle` | Assets/Scripts/GameManager.cs:561 | a permutation keeps all blocks inside the circle |
| `Gaps.MergeAll` | Assets/Scripts/GameManager.cs:562-571 | at least one merged block, and the first starts where the first sorted block starts; the merged blocks cover exactly the points of the sorted ones (`MergeAllSameUnion`) |
| `Gaps.MergeFromNonEmpty` | Assets/Scripts/GameManager.cs:562-571 | the merge emits at least one block |
| `Gaps.MergeFromShape` | Assets/Scripts/GameManager.cs:562-571 | merged blocks lie in the circle and are pairwise separated (each ends before the next starts); the first starts where the first input starts |
| `Gaps.MergeFromCovers` | Assets/Scripts/GameManager.cs:562-571 | every input block is contained in some merged block |
| `Gaps.MergeFromWithin` | Assets/Scripts/GameManager.cs:562-571 | the converse of `MergeFromCovers`: every point of every merged block lies in some input block, so merging blocks nothing new |
| `Gaps.MergeAllSameUnion` | Assets/Scripts/GameManager.cs:562-571 | a point lies in some merged block if and only if it lies in some sorted input block |
| `Gaps.MergeBlocks` | Assets/Scripts/GameManager.cs:562-571 | the merge loop returns `MergeAll(sorted)` |
| `Gaps.Gaps` | Assets/Scripts/GameManager.cs:576-588 | the scored gaps: the leading gap (only when the first block starts after 0), one per neighbour pair, and the trailing gap to 2π; never a gap joined across 0 |
| `Gaps.GapAt` | Assets/Scripts/GameManager.cs:576-588 | which gap sits at each position of the scored list |
| `Gaps.FirstWidestUnique` | Assets/Scripts/GameManager.cs:580-588 | "widest, with every earlier gap strictly narrower" picks a single gap |
| `Gaps.FirstWidestExists` | Assets/Scripts/GameManager.cs:580-588 | every non-empty list of gaps has a first widest gap |
| `Gaps.GapsNotNegative` | Assets/Scripts/GameManager.cs:576-588 | for separated blocks in the circle every scored gap is >= 0 |
| `Gaps.WidestGap` | Assets/Scripts/GameManager.cs:573-588 | the strict-`>` scan from -1 ends on the first widest scored gap (ties keep the first) |
| `Gaps.SortedBlocksNonEmpty` | Assets/Scripts/GameManager.cs:559-571 | with an arc there is a block to sort and merge |
| `Gaps.MergedInCircle` | Assets/Scripts/GameManager.cs:559-571 | the merged blocks of any arcs lie in the circle, in order and apart |
| `Gaps.FindWidestGapMidAngle` | Assets/Scripts/GameManager.cs:538-595 | result in [0, 2π). With no arcs it is player + π. Otherwise it is the midpoint of the first widest scored gap, or player + π when that midpoint is closer than minSep to the player. The result is `WidestGapTarget` of the arcs. |
| `Gaps.WidestGapTarget` | Assets/Scripts/GameManager.cs:538-595 | the same answer as a function of the arcs, the player angle and minSep, in [0, 2π) |
| `Gaps.WidestGapTargetAt` | Assets/Scripts/GameManager.cs:580-595 | `WidestGapTarget` can be read off any first widest gap, as there is only one |
| `Session.Toggled` | Assets/Scripts/GameManager.cs:620-624 | Playing and Paused swap, in both directions; other states stay |
| `Session.ToggledTwice` | Assets/Scripts/GameManager.cs:620-624 | pausing twice restores the state |
| `Session.SweepDelta` | Assets/Scripts/GameManager.cs:345 | the sweep as written, in (-π, π], carries the NEW angle onto the OLD one |
| `Session.ForwardDelta` | Assets/Scripts/GameManager.cs:345 | the intended sweep, in (-π, π], carries the old angle onto the new one |
| `Session.SubstepCount` | Assets/Scripts/GameManager.cs:346-349 | >= 1; the configured count (at least 1) up to 45°; min(8, count + 1) in (45°, 90°]; min(8, count + 2) beyond 90° |
| `Session.SubstepCountMonotone` | Assets/Scripts/GameManager.cs:346-349 | for a configured count in its editor range 1..8, a longer sweep never gets fewer samples, nor fewer than the configured count |
| `Session.ExtraPadDeg` | Assets/Scripts/GameManager.cs:353-355 | 0 in exact mode; never negative when the configured extra pad is not |
| `Session.ExtraPadBounds` | Assets/Scripts/GameManager.cs:353-355 | the extra pad is 0 in exact mode and in [0, highSpeedExtraPadDeg] otherwise |
| `Session.Sample` | Assets/Scripts/GameManager.cs:364-365 | each sample is an angle in [0, 2π) |
| `Session.LastSampleIsFullSweep` | Assets/Scripts/GameManager.cs:362-365 | the last sample lies at prev + delta |
| `Session.LastSampleMirrorsMove` | Assets/Scripts/GameManager.cs:345-365 | as written, the last sample is WrapRad(2·prev - curr), the mirror of the move |
| `Session.LastSampleIsPosition` | Assets/Scripts/GameManager.cs:362-365 | with the forward sweep the last sample is the new position |
| `Session.AsWrittenMissesNewPosition` | Assets/Scripts/GameManager.cs:345-365 | as written, the last sample is the new position only if the player did not move or moved exactly half a turn |
| `Session.ArcHit` | Assets/Scripts/GameManager.cs:372-374 | a hit (exact or padded, as configured) needs the arc dangerous in the configured mode; a Dead arc never hits |
| `Session.MinStickEdge` | Assets/Scripts/GameManager.cs:462-472 | the scan's result lies in [0, float.MaxValue] |
| `Session.MinStickEdgeIsMinimum` | Assets/Scripts/GameManager.cs:462-472 | the scan's result is <= float.MaxValue and <= every Stick arc's edge distance, and is either float.MaxValue or one of them |
| `Session.OrbGain` | Assets/Scripts/GameManager.cs:497-498 | the points lie within 1/2 of orbScore·multiplier |
| `Session.OrbGainAtLeastScore` | Assets/Scripts/GameManager.cs:497-498 | with orbScore >= 0 and multiplier >= 1, a pickup adds at least orbScore |
| `Session.OrbGainMonotone` | Assets/Scripts/GameManager.cs:497-498 | a larger multiplier never makes a pickup worth less |
| `Session.GrazePoints` | Assets/Scripts/GameManager.cs:476-482 | the points the graze loop takes out of the accumulator: what is left is in [0, 0.1), and the count is not negative for a non-negative accumulator |
| `Session.GrazePointsUnique` | Assets/Scripts/GameManager.cs:476-482 | only one count of points leaves a remainder in [0, 0.1) |
| `Session.BufferStep` | Assets/Scripts/GameManager.cs:291-301 | the flip buffer over a frame: a flip is used exactly when one was pending and the running window did not run out; then one fewer is pending, otherwise none; the window stays in [0, old window] |
| `Session.OrbPickupPadRad` | Assets/Scripts/GameManager.cs:99 | the pickup pad in radians is never negative for a non-negative pad in degrees and converts back to it exactly |
| `Session.GameManager.constructor` | Assets/Scripts/GameManager.cs:81-118 | Title, score 0, multiplier 1, best = saved best, fresh collaborators wired to the config and track, no orb, no arcs; valid |
| `Session.GameManager.QueueFlip` | Assets/Scripts/GameManager.cs:190-194 | pending := min(pending + 1, 2), so it is >= 1 and stays <= 2; the window is re-armed |
| `Session.GameManager.ConsumeFlipBuffered` | Assets/Scripts/GameManager.cs:196-204 | with a pending flip the player flips and the count drops by one; otherwise nothing changes |
| `Session.GameManager.ApplySpeedFromScore` | Assets/Scripts/GameManager.cs:597-602 | the player's speed becomes max(0, curve(score)) |
| `Session.GameManager.ResetRound` | Assets/Scripts/GameManager.cs:230-240 | player at 0 going +1 with its speed kept; the spawner is empty with clock, timer and stage 0 and its difficulty kept; no orb, orb timer 0, no pending edge, the orb's angle and lifetime kept |
| `Session.GameManager.ResetScoring` | Assets/Scripts/GameManager.cs:221-228 | score 0, multiplier 1, chain and graze timers 0, no pending flips, buffer timer 0 |
| `Session.GameManager.StartGame` | Assets/Scripts/GameManager.cs:211-259 | the player, spawner and orb as `ResetRound` leaves them (stage 0, orb timer 0, difficulty and orb angle kept), but with the speed set for score 0; score, multiplier, chain, graze and flip state cleared; Countdown with timer max(1, duration) >= 1 given a display (else 0); best score kept |
| `Session.GameManager.PauseToggle` | Assets/Scripts/GameManager.cs:620-624 | state := Toggled(state) |
| `Session.GameManager.OnMiss` | Assets/Scripts/GameManager.cs:399-411 | GameOver; best := max(best, score), so best >= score and never drops |
| `Session.GameManager.FadeAllArcs` | Assets/Scripts/GameManager.cs:318-319 | every live arc becomes `ForceFaded(arc, max(0.01, forceFadeAllSec))`, Dead arcs are unchanged, so all are Fading or Dead; the spawner's difficulty, clock, timer and stage are kept |
| `Session.GameManager.OrbPlacement` | Assets/Scripts/GameManager.cs:526-536 | where a new orb goes: `WidestGapTarget` of the arcs around the player, moved by the jitter and wrapped; in [0, 2π), and WrapRad(WrapRad(player + π) + jitter) with no arcs |
| `Session.GameManager.TrySpawnOrb` | Assets/Scripts/GameManager.cs:526-536 | a live orb is untouched. A dead one becomes alive, timer 0, no pending edge, at `OrbPlacement` of the arcs, the player angle and the jitter; with no arcs that is WrapRad(player + π + jitter) |
| `Session.GameManager.TickCountdown` | Assets/Scripts/GameManager.cs:264-287 | the timer drops by dt. While it is positive the state and the orb (alive flag, angle, timer, edge) are unchanged. At <= 0 the game is Playing with a live orb: a live orb is kept as it was, a new one has timer 0, no pending edge, and sits exactly at `OrbPlacement` of the arcs, the player angle and the jitter |
| `Session.GameManager.AnyArcHits` | Assets/Scripts/GameManager.cs:367-384 | the inner loop returns true exactly when some arc registers a hit at the angle |
| `Session.GameManager.HitPadRad` | Assets/Scripts/GameManager.cs:351-357 | the hit pad in radians: exactly the configured pad in exact mode; otherwise, for a non-negative extra pad, between the configured pad and the configured pad plus the extra pad |
| `Session.GameManager.CheckHitAlong` | Assets/Scripts/GameManager.cs:343-386 | true exactly when there is a track and some sample i in 1..steps and some arc register a hit |
| `Session.GameManager.CheckHitSweptAsWritten` | Assets/Scripts/GameManager.cs:341-387 | `CheckHitSwept` as written: the sweep is `SweepDelta` |
| `Session.GameManager.CheckHitSwept` | Assets/Scripts/GameManager.cs:341-387 | the corrected test: true exactly when some sample of the forward sweep hits. A hit at the new position is always detected. |
| `Session.GameManager.DoGraze` | Assets/Scripts/GameManager.cs:458-488 | when 0 < min Stick edge < threshold: score gains one point per whole 0.1 s, with accumulator + dt == new accumulator + 0.1·points, and the accumulator ends in [0, 0.1). Otherwise the score is kept and the accumulator becomes max(0, acc - dt/2). |
| `Session.GameManager.CollectOrb` | Assets/Scripts/GameManager.cs:495-514 | score += round(orbScore·multiplier). Multiplier := min(chainMax, m + chainStep), chain timer 0. The new orb is alive, age 0, no pending edge, at `OrbPlacement` of the arcs as they are after the fade. With `fadeArcsWhenOrbPicked` the arcs are faded as `FadeAllArcs` states, else unchanged; the spawner's clock, timer and stage are kept. |
| `Session.GameManager.TryPickupOrb` | Assets/Scripts/GameManager.cs:490-524 | no orb: nothing changes (score, chain, arcs, orb, edge). Within the pad: exactly `CollectOrb`'s score, multiplier, chain timer, arcs (faded or kept) and new orb, with no pending edge. Otherwise the score, arcs and orb are kept and the chain timer grows by dt; at the reset time the multiplier becomes 1 and the timer 0. The spawner's clock, timer and stage are always kept. |
| `Session.GameManager.RunFlipBuffer` | Assets/Scripts/GameManager.cs:291-301 | the window, the pending count and the direction follow `BufferStep`: the player flips exactly when a flip was pending and the window did not run out |
| `Session.GameManager.BeginFrame` | Assets/Scripts/GameManager.cs:291-322 | the flip buffer follows `BufferStep`, then the world step exactly as `MoveWorld` states it (player move, spawner `TickFrame` at the difficulty of the score, arcs faded on an orb expiry, orb as `AgedOrb`); the state, scores, chain, graze accumulator and speed are kept |
| `Session.GameManager.MoveWorld` | Assets/Scripts/GameManager.cs:303-322 | the player moves by StepRad (no move without a track). The spawner's clock, timer and stage are those of `TickFrame` at CalcDifficultyT(score) around the new angle. Its arcs are that frame's arcs, faded as `FadeAllArcs` states exactly when the orb expired and `fadeArcsWhenOrbTimeout` is set. The orb is `AgedOrb` placed around those arcs, and no edge is pending. |
| `Session.GameManager.RunSpawner` | Assets/Scripts/GameManager.cs:307-311 | difficulty := CalcDifficultyT(score); the clock, timer, stage and arcs become `TickFrame` of the old ones at that difficulty |
| `Session.GameManager.AgeOrb` | Assets/Scripts/GameManager.cs:313-322 | the orb becomes `AgedOrb`: an expiring orb (aged to its lifetime, or dead with a pending edge) is replaced at once at `OrbPlacement`, a live one ages by dt, a dead one stays; the edge is consumed. The arcs are faded as `FadeAllArcs` states exactly when the orb expired and `fadeArcsWhenOrbTimeout` is set, else unchanged; the spawner's clock, timer and stage are kept. |
| `Session.GameManager.AgedOrb` | Assets/Scripts/GameManager.cs:313-322 | the orb after its step is alive exactly when it was alive or had a pending expiry; a replacement has age 0 and an angle in [0, 2π); a live orb never ends older than its lifetime |
| `Session.GameManager.ScoreFrame` | Assets/Scripts/GameManager.cs:331-337 | `ScoredFrom` the old values: the graze accumulator and points follow `GrazePoints` (or the decay), the pickup follows `TryPickupOrb`, a missing orb is placed by `OrbPlacement`, and the speed follows the new score. An orb is alive with no pending edge; the spawner's clock is kept; the score never drops (orbScore >= 0, sane chain settings). |
| `Session.GameManager.SettleOrb` | Assets/Scripts/GameManager.cs:332-335 | the pickup and respawn part of the scoring step, as `OrbSettled` states: score, multiplier, chain timer, arcs and the orb follow `TryPickupOrb`, and a dead orb is replaced at `OrbPlacement` with the respawn jitter |
| `Session.GameManager.EndFrame` | Assets/Scripts/GameManager.cs:325-338 | a hit gives GameOver and best := max(best, score), with the score, multiplier, chain, graze accumulator, arcs, orb and speed kept; no hit keeps the state and best and gives `ScoredFrom` the old values. The flip buffer, direction and position are untouched; the score never drops. |
| `Session.GameManager.TickPlaying` | Assets/Scripts/GameManager.cs:289-339 | the frame as written. The buffer follows `BufferStep`; the player moves by `TurnRad(dir, speed, dt)`, wrapped (no move without a track). The spawner ticks as `TickFrame` at the difficulty of the old score; the tested arcs are its arcs, faded on an orb expiry when configured; the orb becomes `AgedOrb`. The game ends exactly when some sample of the sweep `SweepDelta(prev, curr)` hits the tested arcs: then best := max(best, score) and the rest is kept. Otherwise `ScoredFrom` the old values, the aged orb and the tested arcs holds. The score never drops, and `Valid` is preserved. |
| `Session.GameManager.TickPlayingForward` | Assets/Scripts/GameManager.cs:289-339 | the corrected frame of the Findings row: everything as `TickPlaying`, except that the sweep is `ForwardDelta(prev, curr)`; the game ends exactly when some sample of it hits, and always when an arc registers a hit at the new position |

## Findings

| source | as written | input that shows it | evidently intended | confidence | as-written member | corrected member |
|---|---|---|---|---|---|---|
| Assets/Scripts/GameManager.cs:345 | `delta = DeltaAngleRad(currAngle, prevAngle)` is `prev - curr`, and the samples `prev + delta·i/steps` (line 365) walk away from the new position: the last sample is `2·prev - curr` | prevAngle = 0, currAngle = 1 rad: the last sample is 2π - 1 ≈ 5.28 rad and the new position 1 rad is never tested, so an arc sitting exactly there is missed | `DeltaAngleRad(prevAngle, currAngle)`, sweeping from the old angle to the new one, whose last sample is the new position | not executed | `Session.AsWrittenMissesNewPosition` (with `Session.LastSampleMirrorsMove`, `Session.GameManager.CheckHitSweptAsWritten`, used by `Session.GameManager.TickPlaying`) | `Session.GameManager.CheckHitSwept` (with `Session.LastSampleIsPosition`), used by `Session.GameManager.TickPlayingForward` |

## Left out

- Rendering, audio, camera shake, ads, the leaderboard, UI text and panels, the
  hit-debug line and `OnGUI`, `OnRankLoaded`, `Restart` (scene reload) and
  `Time.timeScale`: they do not affect the simulation state.
- `Update` and `HandleGlobalInputs` (input polling and the dispatch on the
  state): the session is driven by calling `StartGame`, `TickCountdown`,
  `TickPlaying`, `QueueFlip` and `PauseToggle` directly.
- `PlayerPrefs`: the saved best score is a constructor parameter and saving it
  is not modelled.
- Scene lookup in `Start`: the `GameManager` constructor creates its player,
  spawner and orb itself, always present and wired to the configuration, so
  the null-collaborator and null-config fallbacks (defaults 3°, 6°, 10, 0.3 s,
  35°, the `0.2f + multiplier` chain) are not modelled. Track presence is kept:
  the track is an `Option` of its radius.
- The spawner holds arcs as values, so `ObstacleArc` object identity,
  `Destroy` and null list entries (`if (!a)`) are not modelled.
- IEEE single-precision rounding: reals are used throughout, so results that
  depend on float rounding (for example `timer >= lifetimeSec` after many
  float additions) are idealised.
- `Mathf.Pow` is the parameter `pow` constrained by `PowLaw`. `Random.Range`
  and `Random.value` are parameters. `TickPlaying` takes a stream of three
  jitter draws, and the pickup chain timer uses the frame's `dt` for
  `Time.deltaTime`.
- `List.Sort` is unstable. The model sorts the blocks with a stable insertion
  sort. Blocks with equal starts may come out in a different order, which can
  change the merge only in which equal-start block is absorbed first.
- `FlipOrbitConfig.CalcMaxConcurrentArcs`: the range [1, max(base, max)]
  is stated only when max(base, max) >= 1. Otherwise the clamp's bounds
  cross, and the result is 1 or the upper bound, as in `Mathf.Clamp`.
- `Session.GameManager.DoGraze`, `ScoreFrame`, `EndFrame`, `TickPlaying` and
  `TickPlayingForward` require `dt >= 0`. Unity's frame time is never negative.
- `ObstacleArc.Rebuild`, `Alpha` and `PhaseColor`, and the line renderer
  settings `Init` takes (vertex count, width, sorting layer, material, colour),
  are presentation only.
- The class-level `EdgeDistanceDeg` on `ObstacleArc` is stated once, on the
  arc's value (`Arcs.EdgeDistanceDeg`), which `DoGraze` uses.
- `SpawnOne`'s `GameObject` creation and its visual arguments are left out.
  Only the timing and shape it passes to `Init` are modelled.
