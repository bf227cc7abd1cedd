/** The unlock tracker as the source keeps it: five mutable variables, updated in place
    by the gaze listener and by the reset block of the start flow (app.js). */
module GazeUnlock {
  import opened Wrappers
  import opened ZoneClassifier
  import opened DwellSequence

  class Tracker {
    var sequenceIndex: int
    var achieved: array<bool>
    var dwellStart: Option<int>
    var lastZone: int
    var unlocked: bool

    /** The variables as one value of the state machine. */
    function Snapshot(): (s: State)
      reads this, achieved
      ensures s.achieved == achieved[..]
    {
      State(sequenceIndex, achieved[..], dwellStart, lastZone, unlocked)
    }

    ghost predicate Valid()
      reads this, achieved
    {
      Inv(Snapshot())
    }

    /** The values the variables are declared with (app.js:17-25). */
    constructor ()
      ensures Valid() && Snapshot() == Initial() && fresh(achieved)
    {
      sequenceIndex := 0;
      achieved := new bool[ZoneCount](_ => false);
      dwellStart := None;
      lastZone := -1;
      unlocked := false;
      new;
      assert achieved[..] == [false, false, false, false];
    }

    /** `achieved.filter(Boolean).length`: the progress readout of `refreshMarkers`. */
    function Progress(): (n: nat)
      reads this, achieved
      requires Valid()
      ensures n <= ZoneCount
      ensures forall i :: 0 <= i < achieved.Length ==> (achieved[i] <==> i < n)
      ensures sequenceIndex == Min(n, LastZone)
    {
      forall i | 0 <= i < achieved.Length
        ensures achieved[i] <==> i < CountTrue(achieved[..])
      {
        PrefixCount(achieved[..], i);
      }
      CountTrue(achieved[..])
    }

    /** `onUnlock`: the terminal flag; the redirect and status text are not modelled. */
    method OnUnlock()
      modifies this`unlocked
      ensures Snapshot() == old(Snapshot()).(unlocked := true)
      ensures old(Valid()) ==> Valid()
    {
      unlocked := true;
    }

    /** The reset block of `startWebGazerFlow` (app.js:121-124): a fresh flag array,
        target 0, no dwell, no last zone. `unlocked` is left as it was. */
    method Reset()
      modifies this
      ensures fresh(achieved)
      ensures Snapshot() == ResetState(old(Snapshot()))
      ensures Valid()
    {
      sequenceIndex := 0;
      achieved := new bool[ZoneCount](_ => false);
      dwellStart := None;
      lastZone := -1;
      assert achieved[..] == [false, false, false, false];
    }

    /** `gazeListener`: one gaze sample, handled at time `now` in a w-by-h viewport. */
    method OnSample(sample: Option<Point>, now: int, w: nat, h: nat)
      requires Valid()
      modifies this, achieved
      ensures achieved == old(achieved)
      ensures Snapshot() == Step(old(Snapshot()), sample, now, w, h)
      ensures Valid()
    {
      StepPreservesInv(Snapshot(), sample, now, w, h);
      if sample.None? || unlocked {
        return;
      }
      var zones := Zones(w, h);
      var zoneIndex := Locate(sample.value.x, sample.value.y, zones);
      if zoneIndex == sequenceIndex {
        if lastZone != zoneIndex {
          dwellStart := Some(now);
          lastZone := zoneIndex;
        } else if dwellStart.Some? && now - dwellStart.value >= DwellMs {
          achieved[zoneIndex] := true;
          sequenceIndex := Min(sequenceIndex + 1, LastZone);
          lastZone := -1;
          dwellStart := None;
          if AllTrue(achieved[..]) {
            OnUnlock();
          }
        }
      } else {
        dwellStart := None;
        lastZone := zoneIndex;
      }
    }
  }
}
