# Eye-Unlock: the four-corner gaze unlock, modelled in Dafny

The application unlocks when the user's gaze dwells in the four corners of the screen
in a fixed order: top-left, top-right, bottom-right, bottom-left. A gaze-estimation
library calls a listener with gaze points. The listener classifies each point into a
corner zone. It starts a dwell clock when the gaze enters the zone that is the current
target. When the gaze has stayed there for 400 ms, the zone is marked achieved and the
target moves on. When all four zones are achieved, the page is unlocked.

This project models that core, from `app.js`:

- `zones.dfy`, module `ZoneClassifier`: the zone rectangles built by `screenZones`
  (each 20% of the viewport edge, rounded as `Math.round` does) and the
  first-match classification loop of `gazeListener`. The loop is written both as the
  `Locate` method and as the `Classify` function that specifies it.
- `dwell.dfy`, module `DwellSequence`: the five module-level variables as a `State`
  value. It also holds `Step`, one listener call as a function of the state, the sample,
  the time and the viewport size, plus the invariants every step keeps and the
  behaviour of each branch. Module `DwellScenario` (same file) proves the
  1000×800 walkthrough end to end.
- `tracker.dfy`, module `GazeUnlock`: class `Tracker` holding the five variables as
  fields, with `achieved` as a four-element array. `OnSample` mutates them in place
  as the listener does, and its contract ties the new state to `Step`. `Reset` is the
  reset block of the start flow, and `Progress` is the "N / 4" readout.
- `wrappers.dfy`: the `Option` type used for a missing sample and an unset dwell start.

The reset block (app.js:121-124) does not clear `unlocked`. `ResetAfterUnlock` states
what follows: a reset after an unlock gives a state with no flags set that is still
unlocked, and no sample changes it afterwards.

## Model

| member | source | states |
|---|---|---|
| ZoneClassifier.ZoneSize | app.js:41-42 | `Math.round(len * 0.20)`: the result r is the integer nearest len/5 (`r - 1/2 <= len/5 < r + 1/2`), equals `(len + 2) / 5`, and is never larger than len |
| ZoneClassifier.ZoneSizeLessThanHalf | app.js:41-42 | for an edge of at least one pixel, twice the zone size is less than the edge |
| ZoneClassifier.Zones | app.js:38-49 | four zones; zone i is ZoneSize(w) wide and ZoneSize(h) tall, lies inside the viewport, and contains corner i in the order TL, TR, BR, BL, which anchors it to that corner |
| ZoneClassifier.ZonesDisjoint | app.js:43-48 | in a viewport at least 1×1, no point lies in two different zones |
| ZoneClassifier.ClassifyFrom | app.js:142-146 | scanning from index i: -1 exactly when no zone from i on contains the point, otherwise the first such zone |
| ZoneClassifier.Classify | app.js:141-147 | result in -1..|zones|-1; -1 exactly when no zone contains the point (edges inclusive), otherwise the smallest index whose zone contains it |
| ZoneClassifier.ClassifyInZone | app.js:141-147 | in a viewport at least 1×1, a point inside zone i is classified as i |
| ZoneClassifier.Locate | app.js:141-147 | the scan loop with its early `break` returns exactly `Classify` |
| DwellSequence.CountTrue | app.js:78 | the count of set flags is at most the number of flags; it equals that number exactly when all are set, and is 0 exactly when none is |
| DwellSequence.PrefixCount | app.js:156-157 | when the flags are a prefix of trues, flag i is set exactly when i is below the count |
| DwellSequence.CountSetOne | app.js:156 | setting one flag that was clear raises the count by exactly one |
| DwellSequence.Initial | app.js:17-25 | the declared initial values satisfy the invariant, are consistent, are locked, and have no progress |
| DwellSequence.ResetState | app.js:121-124 | target 0, no flags set, no dwell start, last zone -1, `unlocked` unchanged, and the invariant holds whatever the state was before |
| DwellSequence.Observe | app.js:139-147 | the observed zone of a sample is between -1 and 3 |
| DwellSequence.Step | app.js:135-170 | one listener call keeps four flags and a target index in 0..3 |
| DwellSequence.StepNoOp | app.js:136 | a missing sample, or any sample once unlocked, leaves the whole state unchanged |
| DwellSequence.StepOffTarget | app.js:166-169 | a sample whose zone is not the target (another zone or none) clears the dwell start and sets the last zone to the observed zone; target, flags and `unlocked` are unchanged |
| DwellSequence.StepFreshEntry | app.js:149-152 | entering the target zone when the last zone was different sets the dwell start to `now` and the last zone to the target; no progress |
| DwellSequence.StepDwellPending | app.js:153-155 | staying in the target zone with less than 400 ms elapsed since the dwell start changes nothing |
| DwellSequence.StepDwellComplete | app.js:153-163 | staying in the target zone with at least 400 ms elapsed (inclusive) sets the target's flag, makes the target `min(target + 1, 3)`, clears the dwell start, sets the last zone to -1, raises the count by one, and unlocks exactly when the count reaches 4 |
| DwellSequence.StepPreservesInv | app.js:149-169 | every call keeps: target in 0..3, last zone in -1..3, flags a prefix of trues, target = min(count, 3), count 4 implies unlocked, and a dwell start is set exactly when the last zone is the target |
| DwellSequence.StepPreservesConsistent | app.js:156-163 | if `unlocked` held exactly when all four flags were set, it still does after the call |
| DwellSequence.StepOrdered | app.js:149-160 | a set flag is never cleared; a flag that becomes set is the current target's, and all flags before it were already set (no skipping ahead, no regression on revisit) |
| DwellSequence.StepUnlocks | app.js:161-163 | the call that unlocks is the one completing the last zone, with the target at 3 and three flags already set; afterwards all four are set |
| DwellSequence.ExcursionRestartsDwell | app.js:149-152 | one sample off the target then one back in it restarts the dwell clock at the time of return instead of resuming it; no progress |
| DwellSequence.ResetAfterUnlock | app.js:121-124 | a reset after an unlock leaves `unlocked` true with no flags set, which breaks the "unlocked exactly when all flags are set" property, and every later call is a no-op |
| DwellSequence.ResetWhileLocked | app.js:121-124 | a reset of a locked state is consistent and has no progress |
| DwellSequence.Run | app.js:135-170 | the gaze library calling the listener once per tick, in order, keeps four flags and a target index in 0..3 |
| DwellSequence.RunPreservesConsistent | app.js:156-163 | over any sequence of listener calls, `unlocked` keeps holding exactly when all four flags are set |
| DwellSequence.RunPreservesInv | app.js:135-170 | any sequence of listener calls keeps the invariant |
| DwellSequence.RunUnlockedAbsorbs | app.js:136 | once unlocked, any sequence of calls leaves the state unchanged, so the unlock is reached at most once |
| DwellSequence.RunDwellPending | app.js:153-155 | samples that stay in the target zone, all less than 400 ms after the dwell start, leave the state unchanged |
| DwellSequence.RunOffTarget | app.js:166-169 | a non-empty run of samples all in one non-target zone only clears the dwell and records that zone |
| DwellScenario.DwellBatch | app.js:149-160 | nine samples 50 ms apart in a freshly entered target zone act like one entry at the first sample followed by a completed dwell at the ninth, 400 ms later |
| DwellScenario.BatchAdvances | app.js:149-163 | such a batch sets the target's flag, advances the target (clamped at 3), re-arms, and unlocks exactly when it completes the fourth zone |
| DwellScenario.ScenarioZones | app.js:38-49 | for 1000×800 the zones are [0,200]×[0,160], [800,1000]×[0,160], [800,1000]×[640,800] and [0,200]×[640,800], and the scenario's four points fall in TL, TR, BR and BL |
| DwellScenario.FullScenario | app.js:135-170 | at 1000×800 with samples every 50 ms: nine in TL, TR and BR achieve those zones in turn; nine more in TR while the target is BL change no flag and stay locked; nine in BL then unlock |
| GazeUnlock.Tracker.constructor | app.js:17-25 | the fields start at the declared initial values and satisfy the invariant |
| GazeUnlock.Tracker.Progress | app.js:78 | the progress count is at most 4; flag i is set exactly when i is below it; the target index is `min(count, 3)` |
| GazeUnlock.Tracker.OnUnlock | app.js:81-82 | the new snapshot is the old one with `unlocked` set, and it keeps the invariant |
| GazeUnlock.Tracker.Reset | app.js:121-124 | allocates a fresh flag array, leaves the fields equal to `ResetState` of the old state (`unlocked` kept), and the invariant holds |
| GazeUnlock.Tracker.OnSample | app.js:135-170 | mutates the fields in place, keeping the same flag array, so that the new state is `Step` of the old state, sample, time and viewport; the invariant is kept |

## Left out

- DOM lookups, corner-marker classes and opacity, and status text (app.js:2-15, 73-79, 83-84) are UI side effects. Only the progress count of `refreshMarkers` is modelled.
- Canvas sizing and debug drawing (`resizeCanvas`, `drawDebug`) are rendering with floating-point `devicePixelRatio` scaling, and are not modelled. The viewport size `canvas.clientWidth` × `canvas.clientHeight` becomes the `w` and `h` parameters, read afresh on every sample as `screenZones` does.
- Camera permission and the gaze library setup (`ensureFrontCamera`, the `webgazer` calls) are asynchronous I/O and a foreign library, and are not modelled. The library's calls to the listener become calls of `OnSample`.
- The animation loop, the delayed redirect in `onUnlock`, the calibration dots and the button wiring (app.js:85-87, 127-132, 172-201) are timer and event plumbing, and are not modelled.
- Gaze coordinates are modelled as integers, and `performance.now()` as an integer `now` parameter. The source uses double-precision numbers. The listener reads the clock twice (lines 151 and 154), but only one reading is used on any path, so one `now` per call is exact.
- ZoneClassifier.ZoneSize: models `Math.round(w * 0.20)` on exact rationals. With double arithmetic `w * 0.2` may differ from w/5 by a rounding error. For integer w the fraction of w/5 is a multiple of 0.2, never near one half, so the rounded result is the same.
- DwellSequence.Step: the dwell start is an `Option`. The source tests it with JavaScript truthiness (`dwellStart && ...`, line 155), which would also treat a timestamp of exactly 0 as absent. That case is not modelled. Under the invariant a dwell start is always set when that test is reached.
- Viewports of size zero are not rejected. The source builds degenerate zones for them too. The disjointness lemmas assume a viewport of at least 1×1.
