/** The four corner zones of the viewport and the classification of a gaze point
    into one of them (app.js, `screenZones` and the zone loop of `gazeListener`). */
module ZoneClassifier {

  /** An axis-aligned rectangle; a point on any of its four edges is inside it. */
  datatype Rect = Rect(xMin: int, xMax: int, yMin: int, yMax: int)

  /** The number of zones, in the canonical order top-left, top-right, bottom-right, bottom-left. */
  const ZoneCount := 4

  predicate Contains(z: Rect, x: int, y: int) {
    x >= z.xMin && x <= z.xMax && y >= z.yMin && y <= z.yMax
  }

  /** `Math.round(len * 0.20)`: the integer nearest to len/5, with halves rounded up.
      The result is pinned down by the two bounds `r - 1/2 <= len/5 < r + 1/2`
      (multiplied through by 10), and equals `(len + 2) / 5` because len/5 never
      has a fractional part of exactly one half. */
  function ZoneSize(len: nat): (r: nat)
    ensures 10 * r - 5 <= 2 * len < 10 * r + 5
    ensures r == (len + 2) / 5
    ensures r <= len
  {
    (2 * len + 5) / 10
  }

  /** For a non-empty viewport edge, two zone sizes fit along it with room to spare. */
  lemma ZoneSizeLessThanHalf(len: nat)
    requires len >= 1
    ensures 2 * ZoneSize(len) < len
  {
    if len >= 2 {
      assert 10 * ZoneSize(len) <= 2 * len + 5 < 5 * len;
    }
  }

  /** x coordinate of corner i of a w-by-h viewport. */
  function CornerX(i: int, w: int): int {
    if i == 1 || i == 2 then w else 0
  }

  /** y coordinate of corner i of a w-by-h viewport. */
  function CornerY(i: int, h: int): int {
    if i == 2 || i == 3 then h else 0
  }

  /** The zones of a w-by-h viewport: zone i is a ZoneSize(w)-by-ZoneSize(h)
      rectangle that lies inside the viewport and contains corner i, which
      anchors it to that corner. */
  function Zones(w: nat, h: nat): (zs: seq<Rect>)
    ensures |zs| == ZoneCount
    ensures forall i :: 0 <= i < |zs| ==>
      zs[i].xMax - zs[i].xMin == ZoneSize(w) && zs[i].yMax - zs[i].yMin == ZoneSize(h)
    ensures forall i :: 0 <= i < |zs| ==>
      0 <= zs[i].xMin && zs[i].xMax <= w && 0 <= zs[i].yMin && zs[i].yMax <= h
    ensures forall i :: 0 <= i < |zs| ==> Contains(zs[i], CornerX(i, w), CornerY(i, h))
  {
    var px := ZoneSize(w);
    var py := ZoneSize(h);
    [ Rect(0, px, 0, py),
      Rect(w - px, w, 0, py),
      Rect(w - px, w, h - py, h),
      Rect(0, px, h - py, h) ]
  }

  /** The zones of a non-degenerate viewport are pairwise disjoint, so a point lies in at most one. */
  lemma ZonesDisjoint(w: nat, h: nat, i: int, j: int, x: int, y: int)
    requires w >= 1 && h >= 1
    requires 0 <= i < ZoneCount && 0 <= j < ZoneCount && i != j
    requires Contains(Zones(w, h)[i], x, y)
    ensures !Contains(Zones(w, h)[j], x, y)
  {
    ZoneSizeLessThanHalf(w);
    ZoneSizeLessThanHalf(h);
  }

  /** The first zone at index i or later that contains (x, y), or -1 if none does. */
  function ClassifyFrom(x: int, y: int, zones: seq<Rect>, i: nat): (r: int)
    requires i <= |zones|
    ensures r == -1 || i <= r < |zones|
    ensures r == -1 <==> forall j :: i <= j < |zones| ==> !Contains(zones[j], x, y)
    ensures r != -1 ==> Contains(zones[r], x, y) && forall j :: i <= j < r ==> !Contains(zones[j], x, y)
    decreases |zones| - i
  {
    if i == |zones| then -1
    else if Contains(zones[i], x, y) then i
    else ClassifyFrom(x, y, zones, i + 1)
  }

  /** The zone index of a gaze point: -1 when no zone contains it, otherwise the
      smallest index whose closed rectangle contains it. */
  function Classify(x: int, y: int, zones: seq<Rect>): (r: int)
    ensures -1 <= r < |zones|
    ensures r == -1 <==> forall j :: 0 <= j < |zones| ==> !Contains(zones[j], x, y)
    ensures r != -1 ==> Contains(zones[r], x, y) && forall j :: 0 <= j < r ==> !Contains(zones[j], x, y)
  {
    ClassifyFrom(x, y, zones, 0)
  }

  /** In a non-degenerate viewport the first-match order never decides anything:
      a point inside zone i is classified as i. */
  lemma ClassifyInZone(w: nat, h: nat, i: int, x: int, y: int)
    requires w >= 1 && h >= 1
    requires 0 <= i < ZoneCount && Contains(Zones(w, h)[i], x, y)
    ensures Classify(x, y, Zones(w, h)) == i
  {
    var r := Classify(x, y, Zones(w, h));
    if r != i {
      assert r != -1;
      ZonesDisjoint(w, h, i, r, x, y);
    }
  }

  /** The classification loop of `gazeListener`: scan the zones in order and stop at the first hit. */
  method Locate(x: int, y: int, zones: seq<Rect>) returns (zoneIndex: int)
    ensures zoneIndex == Classify(x, y, zones)
  {
    zoneIndex := -1;
    var i := 0;
    while i < |zones|
      invariant 0 <= i <= |zones|
      invariant zoneIndex == -1
      invariant forall j :: 0 <= j < i ==> !Contains(zones[j], x, y)
    {
      var z := zones[i];
      if x >= z.xMin && x <= z.xMax && y >= z.yMin && y <= z.yMax {
        zoneIndex := i;
        break;
      }
      i := i + 1;
    }
  }
}
