/** The dwell / sequence state machine of `gazeListener` (app.js) as a function on
    values, with the invariants it keeps and the behaviour the unlock gesture promises. */
module DwellSequence {
  import opened Wrappers
  import opened ZoneClassifier

  /** How long (in milliseconds) the gaze must stay in the target zone: DWELL_MS. */
  const DwellMs := 400
  /** The last zone index; the target is clamped here after the last advance. */
  const LastZone := 3

  /** A gaze point in viewport pixel coordinates. */
  datatype Point = Point(x: int, y: int)

  /** The module-level variables `sequenceIndex`, `achieved`, `dwellStart`,
      `lastZone` and `unlocked`. */
  datatype State = State(
    sequenceIndex: int,
    achieved: seq<bool>,
    dwellStart: Option<int>,
    lastZone: int,
    unlocked: bool)

  /** One delivery of the gaze listener: the sample (possibly missing) and the time it is handled at. */
  datatype Tick = Tick(sample: Option<Point>, now: int)

  function Min(a: int, b: int): int {
    if a < b then a else b
  }

  /** `achieved.filter(Boolean).length`: how many flags are set. */
  function CountTrue(s: seq<bool>): (n: nat)
    ensures n <= |s|
    ensures n == |s| <==> forall i :: 0 <= i < |s| ==> s[i]
    ensures n == 0 <==> forall i :: 0 <= i < |s| ==> !s[i]
  {
    if s == [] then 0
    else (if s[0] then 1 else 0) + CountTrue(s[1..])
  }

  /** `achieved.every(Boolean)`. */
  predicate AllTrue(s: seq<bool>) {
    forall i :: 0 <= i < |s| ==> s[i]
  }

  /** No zone is achieved before every zone ahead of it in the order is. */
  predicate PrefixOfTrues(s: seq<bool>) {
    forall i, j :: 0 <= j < i < |s| && s[i] ==> s[j]
  }

  /** The shape the state always has: four flags and a target index in range. */
  predicate WellFormed(s: State) {
    |s.achieved| == ZoneCount && 0 <= s.sequenceIndex <= LastZone
  }

  /** The invariant every transition keeps. */
  predicate Inv(s: State) {
    WellFormed(s) &&
    -1 <= s.lastZone <= LastZone &&
    PrefixOfTrues(s.achieved) &&
    s.sequenceIndex == Min(CountTrue(s.achieved), LastZone) &&
    (CountTrue(s.achieved) == ZoneCount ==> s.unlocked) &&
    (s.dwellStart.Some? <==> s.lastZone == s.sequenceIndex)
  }

  /** `unlocked` holds exactly when all four flags are set. */
  predicate Consistent(s: State) {
    s.unlocked <==> AllTrue(s.achieved)
  }

  /** The values the variables are declared with (app.js:17-25). */
  function Initial(): (s: State)
    ensures Inv(s) && Consistent(s) && !s.unlocked && CountTrue(s.achieved) == 0
  {
    State(0, [false, false, false, false], None, -1, false)
  }

  /** The reset block of `startWebGazerFlow`: everything but `unlocked` starts over. */
  function ResetState(s: State): (r: State)
    ensures r.sequenceIndex == 0 && CountTrue(r.achieved) == 0 && |r.achieved| == ZoneCount
    ensures r.dwellStart == None && r.lastZone == -1
    ensures r.unlocked == s.unlocked
    ensures Inv(r)
  {
    State(0, [false, false, false, false], None, -1, s.unlocked)
  }

  /** The zone a sample falls in, for a w-by-h viewport. */
  function Observe(p: Point, w: nat, h: nat): (z: int)
    ensures -1 <= z < ZoneCount
  {
    Classify(p.x, p.y, Zones(w, h))
  }

  /** One call of `gazeListener` with the sample, the time `now` and the viewport size. */
  function Step(s: State, sample: Option<Point>, now: int, w: nat, h: nat): (t: State)
    requires WellFormed(s)
    ensures WellFormed(t)
  {
    if sample.None? || s.unlocked then s
    else
      var zoneIndex := Observe(sample.value, w, h);
      if zoneIndex == s.sequenceIndex then
        if s.lastZone != zoneIndex then
          s.(dwellStart := Some(now), lastZone := zoneIndex)
        else if s.dwellStart.Some? && now - s.dwellStart.value >= DwellMs then
          var flags := s.achieved[zoneIndex := true];
          var t := State(Min(s.sequenceIndex + 1, LastZone), flags, None, -1, s.unlocked);
          if AllTrue(flags) then t.(unlocked := true) else t
        else s
      else
        s.(dwellStart := None, lastZone := zoneIndex)
  }

  /** A sequence of listener calls, in order. */
  function Run(s: State, ticks: seq<Tick>, w: nat, h: nat): (t: State)
    requires WellFormed(s)
    ensures WellFormed(t)
    decreases |ticks|
  {
    if ticks == [] then s
    else Run(Step(s, ticks[0].sample, ticks[0].now, w, h), ticks[1..], w, h)
  }

  // ---------------------------------------------------------------------------
  // The progress count

  /** With the flags a prefix of trues, flag i is set exactly when i is below the count. */
  lemma {:induction false} PrefixCount(s: seq<bool>, i: int)
    requires PrefixOfTrues(s) && 0 <= i < |s|
    ensures s[i] <==> i < CountTrue(s)
  {
    if !s[0] {
      assert forall k :: 0 <= k < |s| ==> !s[k];
    } else if i > 0 {
      assert PrefixOfTrues(s[1..]) by {
        forall a, b | 0 <= b < a < |s[1..]| && s[1..][a]
          ensures s[1..][b]
        {
          assert s[a + 1] && s[1..][b] == s[b + 1];
        }
      }
      PrefixCount(s[1..], i - 1);
    }
  }

  /** Setting one flag that was clear adds exactly one to the count. */
  lemma {:induction false} CountSetOne(s: seq<bool>, i: int)
    requires 0 <= i < |s| && !s[i]
    ensures CountTrue(s[i := true]) == CountTrue(s) + 1
  {
    if i > 0 {
      assert s[i := true][1..] == s[1..][i - 1 := true];
      CountSetOne(s[1..], i - 1);
    } else {
      assert s[i := true][1..] == s[1..];
    }
  }

  // ---------------------------------------------------------------------------
  // One transition

  /** A missing sample, or any sample once unlocked, changes nothing (app.js:136). */
  lemma StepNoOp(s: State, sample: Option<Point>, now: int, w: nat, h: nat)
    requires WellFormed(s) && (sample.None? || s.unlocked)
    ensures Step(s, sample, now, w, h) == s
  {
  }

  /** A sample outside the target zone (in another zone or in none) clears the dwell,
      records the zone it fell in and makes no progress (app.js:166-169). */
  lemma StepOffTarget(s: State, p: Point, now: int, w: nat, h: nat)
    requires WellFormed(s) && !s.unlocked
    requires Observe(p, w, h) != s.sequenceIndex
    ensures var t := Step(s, Some(p), now, w, h);
      t.dwellStart == None && t.lastZone == Observe(p, w, h) &&
      t.sequenceIndex == s.sequenceIndex && t.achieved == s.achieved && t.unlocked == s.unlocked
  {
  }

  /** Entering the target zone from elsewhere starts the dwell clock at `now` and makes no progress (app.js:149-152). */
  lemma StepFreshEntry(s: State, p: Point, now: int, w: nat, h: nat)
    requires WellFormed(s) && !s.unlocked
    requires Observe(p, w, h) == s.sequenceIndex && s.lastZone != s.sequenceIndex
    ensures var t := Step(s, Some(p), now, w, h);
      t.dwellStart == Some(now) && t.lastZone == s.sequenceIndex &&
      t.sequenceIndex == s.sequenceIndex && t.achieved == s.achieved && t.unlocked == s.unlocked
  {
  }

  /** Staying in the target zone for less than the threshold changes nothing (app.js:153-155). */
  lemma StepDwellPending(s: State, p: Point, now: int, w: nat, h: nat)
    requires Inv(s) && !s.unlocked
    requires Observe(p, w, h) == s.sequenceIndex && s.lastZone == s.sequenceIndex
    requires now - s.dwellStart.value < DwellMs
    ensures Step(s, Some(p), now, w, h) == s
  {
  }

  /** Staying in the target zone for the threshold or longer (the bound is inclusive)
      achieves the zone, advances the target (clamped at the last zone), re-arms the
      dwell, and unlocks when that was the last flag (app.js:155-163). */
  lemma StepDwellComplete(s: State, p: Point, now: int, w: nat, h: nat)
    requires Inv(s) && !s.unlocked
    requires Observe(p, w, h) == s.sequenceIndex && s.lastZone == s.sequenceIndex
    requires now - s.dwellStart.value >= DwellMs
    ensures var t := Step(s, Some(p), now, w, h);
      t.achieved == s.achieved[s.sequenceIndex := true] &&
      t.sequenceIndex == Min(s.sequenceIndex + 1, LastZone) &&
      t.dwellStart == None && t.lastZone == -1 &&
      CountTrue(t.achieved) == CountTrue(s.achieved) + 1 &&
      (t.unlocked <==> CountTrue(t.achieved) == ZoneCount)
  {
    PrefixCount(s.achieved, s.sequenceIndex);
    CountSetOne(s.achieved, s.sequenceIndex);
  }

  /** Every transition keeps the invariant: the target stays in range, flags are set in
      order only, and the target is always the first unset flag (or the last zone). */
  lemma StepPreservesInv(s: State, sample: Option<Point>, now: int, w: nat, h: nat)
    requires Inv(s)
    ensures Inv(Step(s, sample, now, w, h))
  {
    if sample.Some? && !s.unlocked {
      var p := sample.value;
      var t := Step(s, sample, now, w, h);
      if Observe(p, w, h) == s.sequenceIndex && s.lastZone == s.sequenceIndex && now - s.dwellStart.value >= DwellMs {
        StepDwellComplete(s, p, now, w, h);
        var k := s.sequenceIndex;
        forall a, b | 0 <= b < a < |t.achieved| && t.achieved[a]
          ensures t.achieved[b]
        {
          PrefixCount(s.achieved, b);
          if a != k {
            PrefixCount(s.achieved, a);
          }
        }
      }
    }
  }

  /** `unlocked` stays in step with "all four flags set" (app.js:161-163). */
  lemma StepPreservesConsistent(s: State, sample: Option<Point>, now: int, w: nat, h: nat)
    requires Inv(s) && Consistent(s)
    ensures Consistent(Step(s, sample, now, w, h))
  {
    if sample.Some? && !s.unlocked {
      var p := sample.value;
      if Observe(p, w, h) == s.sequenceIndex && s.lastZone == s.sequenceIndex && now - s.dwellStart.value >= DwellMs {
        StepDwellComplete(s, p, now, w, h);
      }
    }
  }

  /** Flags are never cleared, and the only flag a transition can set is the current
      target's, all of whose predecessors are already set: no skipping ahead, and no
      regression when an achieved corner is looked at again. */
  lemma StepOrdered(s: State, sample: Option<Point>, now: int, w: nat, h: nat, i: int)
    requires Inv(s) && 0 <= i < ZoneCount
    ensures var t := Step(s, sample, now, w, h);
      (s.achieved[i] ==> t.achieved[i]) &&
      (!s.achieved[i] && t.achieved[i] ==>
        i == s.sequenceIndex && forall j :: 0 <= j < i ==> s.achieved[j])
  {
    var t := Step(s, sample, now, w, h);
    if !s.achieved[i] && t.achieved[i] {
      forall j | 0 <= j < i
        ensures s.achieved[j]
      {
        PrefixCount(s.achieved, i);
        PrefixCount(s.achieved, j);
      }
    }
  }

  /** The unlock fires on exactly one transition: the one that completes the last
      zone while the target is the last zone and three flags were already set. */
  lemma StepUnlocks(s: State, sample: Option<Point>, now: int, w: nat, h: nat)
    requires Inv(s) && !s.unlocked
    requires Step(s, sample, now, w, h).unlocked
    ensures s.sequenceIndex == LastZone && CountTrue(s.achieved) == LastZone
    ensures AllTrue(Step(s, sample, now, w, h).achieved)
  {
    var p := sample.value;
    StepDwellComplete(s, p, now, w, h);
  }

  /** A single sample outside the target zone restarts the dwell rather than pausing it:
      on coming back, the clock starts again at the time of return, with no progress. */
  lemma ExcursionRestartsDwell(s: State, q: Point, t1: int, p: Point, t2: int, w: nat, h: nat)
    requires Inv(s) && !s.unlocked
    requires Observe(q, w, h) != s.sequenceIndex && Observe(p, w, h) == s.sequenceIndex
    ensures var t := Step(Step(s, Some(q), t1, w, h), Some(p), t2, w, h);
      t.dwellStart == Some(t2) && t.lastZone == s.sequenceIndex &&
      t.sequenceIndex == s.sequenceIndex && t.achieved == s.achieved && !t.unlocked
  {
    var m := Step(s, Some(q), t1, w, h);
    StepOffTarget(s, q, t1, w, h);
    StepFreshEntry(m, p, t2, w, h);
  }

  /** The reset block leaves `unlocked` alone: after an unlock, a reset yields a state
      with no flags set that is still unlocked, and no sample can move it any more. */
  lemma ResetAfterUnlock(s: State, sample: Option<Point>, now: int, w: nat, h: nat)
    requires s.unlocked
    ensures var r := ResetState(s);
      !Consistent(r) && Step(r, sample, now, w, h) == r
  {
  }

  /** Resetting a locked tracker gives a consistent state with no progress. */
  lemma ResetWhileLocked(s: State)
    requires !s.unlocked
    ensures Consistent(ResetState(s)) && CountTrue(ResetState(s).achieved) == 0
  {
  }

  // ---------------------------------------------------------------------------
  // Runs of transitions

  lemma {:induction false} RunAppend(s: State, a: seq<Tick>, b: seq<Tick>, w: nat, h: nat)
    requires WellFormed(s)
    ensures Run(s, a + b, w, h) == Run(Run(s, a, w, h), b, w, h)
    decreases |a|
  {
    if a != [] {
      var s1 := Step(s, a[0].sample, a[0].now, w, h);
      assert a + b != [] && (a + b)[0] == a[0] && (a + b)[1..] == a[1..] + b;
      assert Run(s, a + b, w, h) == Run(s1, a[1..] + b, w, h);
      assert Run(s, a, w, h) == Run(s1, a[1..], w, h);
      RunAppend(s1, a[1..], b, w, h);
    } else {
      assert a + b == b;
    }
  }

  /** Any run of listener calls keeps the invariant. */
  lemma {:induction false} RunPreservesInv(s: State, ticks: seq<Tick>, w: nat, h: nat)
    requires Inv(s)
    ensures Inv(Run(s, ticks, w, h))
    decreases |ticks|
  {
    if ticks != [] {
      StepPreservesInv(s, ticks[0].sample, ticks[0].now, w, h);
      RunPreservesInv(Step(s, ticks[0].sample, ticks[0].now, w, h), ticks[1..], w, h);
    }
  }

  /** Any run of listener calls keeps `unlocked` in step with "all four flags set". */
  lemma {:induction false} RunPreservesConsistent(s: State, ticks: seq<Tick>, w: nat, h: nat)
    requires Inv(s) && Consistent(s)
    ensures Consistent(Run(s, ticks, w, h))
    decreases |ticks|
  {
    if ticks != [] {
      StepPreservesInv(s, ticks[0].sample, ticks[0].now, w, h);
      StepPreservesConsistent(s, ticks[0].sample, ticks[0].now, w, h);
      RunPreservesConsistent(Step(s, ticks[0].sample, ticks[0].now, w, h), ticks[1..], w, h);
    }
  }

  /** Once unlocked, no run of listener calls changes anything: the terminal state absorbs. */
  lemma {:induction false} RunUnlockedAbsorbs(s: State, ticks: seq<Tick>, w: nat, h: nat)
    requires WellFormed(s) && s.unlocked
    ensures Run(s, ticks, w, h) == s
    decreases |ticks|
  {
    if ticks != [] {
      StepNoOp(s, ticks[0].sample, ticks[0].now, w, h);
      RunUnlockedAbsorbs(s, ticks[1..], w, h);
    }
  }

  /** Samples that stay in the target zone before the threshold has elapsed leave the
      state untouched: a dwell of DwellMs - 1 milliseconds achieves nothing. */
  lemma {:induction false} RunDwellPending(s: State, ticks: seq<Tick>, w: nat, h: nat)
    requires Inv(s) && !s.unlocked && s.lastZone == s.sequenceIndex
    requires forall k :: 0 <= k < |ticks| ==>
      ticks[k].sample.Some? && Observe(ticks[k].sample.value, w, h) == s.sequenceIndex &&
      ticks[k].now - s.dwellStart.value < DwellMs
    ensures Run(s, ticks, w, h) == s
    decreases |ticks|
  {
    if ticks != [] {
      StepDwellPending(s, ticks[0].sample.value, ticks[0].now, w, h);
      RunDwellPending(s, ticks[1..], w, h);
    }
  }

  /** Samples that all fall in one zone other than the target only clear the dwell. */
  lemma {:induction false} RunOffTarget(s: State, ticks: seq<Tick>, z: int, w: nat, h: nat)
    requires WellFormed(s) && !s.unlocked && |ticks| > 0 && z != s.sequenceIndex
    requires forall k :: 0 <= k < |ticks| ==>
      ticks[k].sample.Some? && Observe(ticks[k].sample.value, w, h) == z
    ensures Run(s, ticks, w, h) == s.(dwellStart := None, lastZone := z)
    decreases |ticks|
  {
    var t := Step(s, ticks[0].sample, ticks[0].now, w, h);
    StepOffTarget(s, ticks[0].sample.value, ticks[0].now, w, h);
    assert t == s.(dwellStart := None, lastZone := z);
    if |ticks| > 1 {
      RunOffTarget(t, ticks[1..], z, w, h);
    }
  }
}

/** The end-to-end behaviour of the gesture on concrete sample streams. */
module DwellScenario {
  import opened Wrappers
  import opened ZoneClassifier
  import opened DwellSequence

  /** n samples at one point, delivered every 50 ms from time t0 on. */
  function Batch(p: Point, t0: int, n: nat): (ticks: seq<Tick>)
    ensures |ticks| == n
    ensures forall k :: 0 <= k < n ==> ticks[k] == Tick(Some(p), t0 + 50 * k)
  {
    seq(n, k => Tick(Some(p), t0 + 50 * k))
  }

  lemma RunOne(s: State, tick: Tick, w: nat, h: nat)
    requires WellFormed(s)
    ensures Run(s, [tick], w, h) == Step(s, tick.sample, tick.now, w, h)
  {
    assert [tick][1..] == [];
  }

  /** Nine samples 50 ms apart inside the target zone, entered afresh, act exactly like
      one entry at the first sample followed by one completed dwell at the ninth
      (400 ms later, the threshold itself): the seven samples between achieve nothing. */
  lemma DwellBatch(s: State, p: Point, t0: int, w: nat, h: nat)
    requires Inv(s) && !s.unlocked && s.lastZone != s.sequenceIndex
    requires Observe(p, w, h) == s.sequenceIndex
    ensures var s1 := Step(s, Some(p), t0, w, h);
      s1.dwellStart == Some(t0) &&
      Run(s, Batch(p, t0, 9), w, h) == Step(s1, Some(p), t0 + DwellMs, w, h)
  {
    var xs := Batch(p, t0, 9);
    var s1 := Step(s, Some(p), t0, w, h);
    StepFreshEntry(s, p, t0, w, h);
    StepPreservesInv(s, Some(p), t0, w, h);
    assert xs == [xs[0]] + xs[1..8] + [xs[8]];
    RunAppend(s, [xs[0]] + xs[1..8], [xs[8]], w, h);
    RunAppend(s, [xs[0]], xs[1..8], w, h);
    RunOne(s, xs[0], w, h);
    RunDwellPending(s1, xs[1..8], w, h);
    RunOne(s1, xs[8], w, h);
  }

  /** A fresh batch of nine samples in the target zone achieves it and moves the target on. */
  lemma BatchAdvances(s: State, p: Point, t0: int, w: nat, h: nat)
    requires Inv(s) && !s.unlocked && s.lastZone != s.sequenceIndex
    requires Observe(p, w, h) == s.sequenceIndex
    ensures var t := Run(s, Batch(p, t0, 9), w, h);
      t == State(Min(s.sequenceIndex + 1, LastZone), s.achieved[s.sequenceIndex := true], None, -1,
                 CountTrue(s.achieved) + 1 == ZoneCount)
  {
    DwellBatch(s, p, t0, w, h);
    StepPreservesInv(s, Some(p), t0, w, h);
    StepDwellComplete(Step(s, Some(p), t0, w, h), p, t0 + DwellMs, w, h);
  }

  /** The zones of the 1000-by-800 viewport, and the corner each sample point of the scenario falls in. */
  lemma ScenarioZones()
    ensures Zones(1000, 800) == [Rect(0, 200, 0, 160), Rect(800, 1000, 0, 160),
                                 Rect(800, 1000, 640, 800), Rect(0, 200, 640, 800)]
    ensures Observe(Point(50, 50), 1000, 800) == 0 && Observe(Point(950, 50), 1000, 800) == 1
    ensures Observe(Point(950, 750), 1000, 800) == 2 && Observe(Point(50, 750), 1000, 800) == 3
  {
    ClassifyInZone(1000, 800, 0, 50, 50);
    ClassifyInZone(1000, 800, 1, 950, 50);
    ClassifyInZone(1000, 800, 2, 950, 750);
    ClassifyInZone(1000, 800, 3, 50, 750);
  }

  /** The state after k corners of the scenario have been dwelled on in order. */
  function AfterCorners(k: nat): (s: State)
    requires k <= ZoneCount
    ensures Inv(s) && Consistent(s) && CountTrue(s.achieved) == k
  {
    var flags := seq(ZoneCount, i => i < k);
    assert CountTrue(flags) == k by {
      if k < ZoneCount {
        PrefixCount(flags, k);
        if k > 0 { PrefixCount(flags, k - 1); }
      }
    }
    State(Min(k, LastZone), flags, None, -1, k == ZoneCount)
  }

  lemma ScenarioStep(k: nat, p: Point, t0: int)
    requires k < ZoneCount && Observe(p, 1000, 800) == k
    ensures Run(AfterCorners(k), Batch(p, t0, 9), 1000, 800) == AfterCorners(k + 1)
  {
    BatchAdvances(AfterCorners(k), p, t0, 1000, 800);
    assert AfterCorners(k).achieved[k := true] == AfterCorners(k + 1).achieved;
  }

  /** The first three corners of the scenario, each dwelled on for nine samples. */
  lemma ScenarioFirstThree(t0: int)
    ensures var w, h := 1000, 800;
      var s1 := Run(Initial(), Batch(Point(50, 50), t0, 9), w, h);
      var s2 := Run(s1, Batch(Point(950, 50), t0 + 450, 9), w, h);
      var s3 := Run(s2, Batch(Point(950, 750), t0 + 900, 9), w, h);
      s1 == AfterCorners(1) && s2 == AfterCorners(2) && s3 == AfterCorners(3)
  {
    ScenarioZones();
    assert Initial() == AfterCorners(0);
    ScenarioStep(0, Point(50, 50), t0);
    ScenarioStep(1, Point(950, 50), t0 + 450);
    ScenarioStep(2, Point(950, 750), t0 + 900);
  }

  /** After three corners, a batch back in TR (not the target BL) changes nothing but
      the last seen zone, and a batch in BL then completes the gesture. */
  lemma ScenarioWrongThenLast(s3: State, t0: int)
    requires s3 == AfterCorners(3)
    ensures var w, h := 1000, 800;
      var s4 := Run(s3, Batch(Point(950, 50), t0 + 1350, 9), w, h);
      var s5 := Run(s4, Batch(Point(50, 750), t0 + 1800, 9), w, h);
      s4 == s3.(lastZone := 1) && s5 == AfterCorners(4)
  {
    var w, h := 1000, 800;
    ScenarioZones();
    RunOffTarget(s3, Batch(Point(950, 50), t0 + 1350, 9), 1, w, h);
    var s4 := s3.(lastZone := 1);
    BatchAdvances(s4, Point(50, 750), t0 + 1800, w, h);
    assert s4.achieved[3 := true] == AfterCorners(4).achieved;
  }

  lemma AfterCornersFlags()
    ensures AfterCorners(1) == State(1, [true, false, false, false], None, -1, false)
    ensures AfterCorners(2) == State(2, [true, true, false, false], None, -1, false)
    ensures AfterCorners(3) == State(3, [true, true, true, false], None, -1, false)
    ensures AfterCorners(4) == State(3, [true, true, true, true], None, -1, true)
  {
    assert AfterCorners(1).achieved == [true, false, false, false];
    assert AfterCorners(2).achieved == [true, true, false, false];
    assert AfterCorners(3).achieved == [true, true, true, false];
    assert AfterCorners(4).achieved == [true, true, true, true];
  }

  /** The scenario of a 1000-by-800 viewport, samples every 50 ms from any start time t0:
      nine in TL, nine in TR, nine in BR, nine in TR again (the wrong zone: the target
      is BL, so no progress and still locked), and nine in BL, which unlocks. */
  lemma FullScenario(t0: int)
    ensures var w, h := 1000, 800;
      var s1 := Run(Initial(), Batch(Point(50, 50), t0, 9), w, h);
      var s2 := Run(s1, Batch(Point(950, 50), t0 + 450, 9), w, h);
      var s3 := Run(s2, Batch(Point(950, 750), t0 + 900, 9), w, h);
      var s4 := Run(s3, Batch(Point(950, 50), t0 + 1350, 9), w, h);
      var s5 := Run(s4, Batch(Point(50, 750), t0 + 1800, 9), w, h);
      s1.achieved == [true, false, false, false] && s1.sequenceIndex == 1 &&
      s2.achieved == [true, true, false, false] && s2.sequenceIndex == 2 &&
      s3.achieved == [true, true, true, false] && s3.sequenceIndex == 3 &&
      s4.achieved == s3.achieved && s4.sequenceIndex == 3 && !s4.unlocked &&
      s5.achieved == [true, true, true, true] && s5.unlocked
  {
    ScenarioFirstThree(t0);
    ScenarioWrongThenLast(AfterCorners(3), t0);
    AfterCornersFlags();
  }
}
