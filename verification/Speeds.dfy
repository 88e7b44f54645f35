/** Ground speed derived from positions: _speeds_from_positions. */
module Speeds {
  import Track

  datatype Position = Position(lat: real, lon: real, time: int)

  const DERIVED_SPEED_SPAN := 5 * Track.SECOND
  const KM_PER_NM := 1.852

  ghost predicate Sorted(points: seq<Position>) {
    forall i, j :: 0 <= i <= j < |points| ==> points[i].time <= points[j].time
  }

  /** Point k is at least DERIVED_SPEED_SPAN older than point i. */
  predicate OldEnough(points: seq<Position>, k: nat, i: nat)
    requires k < |points| && i < |points|
  {
    points[i].time - points[k].time >= DERIVED_SPEED_SPAN
  }

  /** The naive search: the latest earlier point that is old enough, or the
      previous point when none is. */
  ghost predicate Reference(points: seq<Position>, i: nat, k: nat)
    requires i < |points|
  {
    && k < i
    && if OldEnough(points, k, i)
       then forall m :: k < m < i ==> !OldEnough(points, m, i)
       else k == i - 1 && forall m :: 0 <= m < i ==> !OldEnough(points, m, i)
  }

  function SpeedBetween(points: seq<Position>, km: (Position, Position) -> real, k: nat, i: nat): real
    requires k < |points| && i < |points|
  {
    var dt := (points[i].time - points[k].time) as real / Track.SECOND as real;
    if dt > 0.0 then km(points[k], points[i]) / KM_PER_NM * 3600.0 / dt else 0.0
  }

  /** The first point has speed 0; any other is measured from its reference. */
  ghost predicate IsSpeed(points: seq<Position>, km: (Position, Position) -> real, i: nat, v: real)
    requires i < |points|
  {
    if i == 0 then v == 0.0 else exists k :: Reference(points, i, k) && v == SpeedBetween(points, km, k, i)
  }

  lemma ReferenceUnique(points: seq<Position>, i: nat, k: nat, m: nat)
    requires i < |points| && Reference(points, i, k) && Reference(points, i, m)
    ensures k == m
  {
  }

  /** The index j only moves forward; `moves` counts its steps over the whole scan. */
  method SpeedsFromPositions(points: seq<Position>, km: (Position, Position) -> real)
    returns (speeds: seq<real>, ghost moves: nat)
    requires Sorted(points)
    ensures |speeds| == |points|
    ensures forall i :: 0 <= i < |points| ==> IsSpeed(points, km, i, speeds[i])
    ensures moves <= |points|
  {
    hide IsSpeed;
    speeds := [];
    moves := 0;
    var j := 0;
    for i := 0 to |points|
      invariant |speeds| == i && moves == j <= i
      invariant i > 0 ==> j < i
      invariant i > 0 && j > 0 ==> OldEnough(points, j, i - 1)
      invariant forall m :: 0 <= m < i ==> IsSpeed(points, km, m, speeds[m])
    {
      if i == 0 {
        FirstSpeed(points, km);
        speeds := speeds + [0.0];
        continue;
      }
      while j + 1 < i && OldEnough(points, j + 1, i)
        invariant j < i && moves == j
        invariant j > 0 ==> OldEnough(points, j, i)
      {
        j := j + 1;
        moves := moves + 1;
      }
      var k := if OldEnough(points, j, i) then j else i - 1;
      ScanFindsReference(points, i, j);
      NextSpeed(points, km, i, k);
      speeds := speeds + [SpeedBetween(points, km, k, i)];
    }
  }

  lemma ScanFindsReference(points: seq<Position>, i: nat, j: nat)
    requires Sorted(points) && j < i < |points|
    requires j + 1 == i || !OldEnough(points, j + 1, i)
    requires j > 0 ==> OldEnough(points, j, i)
    ensures Reference(points, i, if OldEnough(points, j, i) then j else i - 1)
  {
  }

  lemma FirstSpeed(points: seq<Position>, km: (Position, Position) -> real)
    requires |points| > 0
    ensures IsSpeed(points, km, 0, 0.0)
  {
  }

  lemma NextSpeed(points: seq<Position>, km: (Position, Position) -> real, i: nat, k: nat)
    requires 0 < i < |points| && Reference(points, i, k)
    ensures IsSpeed(points, km, i, SpeedBetween(points, km, k, i))
  {
  }

  /** The reference in seconds: the latest of the earlier points that are 5 s or more
      older, or the point before if there is none. */
  lemma ReferenceInSeconds(points: seq<Position>, i: nat, k: nat)
    requires i < |points|
    ensures Reference(points, i, k) <==>
              || (k < i && points[i].time - points[k].time >= 5 * 1_000_000
                  && forall m :: k < m < i ==> points[i].time - points[m].time < 5 * 1_000_000)
              || (k < i && k == i - 1 && forall m :: 0 <= m < i ==> points[i].time - points[m].time < 5 * 1_000_000)
  {
    forall m: nat | m < i
      ensures OldEnough(points, m, i) <==> points[i].time - points[m].time >= 5 * 1_000_000
    {
    }
    if k < i && (forall m :: 0 <= m < i ==> points[i].time - points[m].time < 5 * 1_000_000) {
      assert !OldEnough(points, k, i);
      assert forall m :: 0 <= m < i ==> !OldEnough(points, m, i);
    }
  }

  /** A speed in knots, kept up for the time between two points, covers the distance
      between them; without time between them it is 0. */
  lemma SpeedCoversDistance(points: seq<Position>, km: (Position, Position) -> real, k: nat, i: nat)
    requires k < |points| && i < |points|
    ensures var seconds := (points[i].time - points[k].time) as real / 1000000.0;
            var v := SpeedBetween(points, km, k, i);
            && (seconds > 0.0 ==> v * 1.852 * seconds == km(points[k], points[i]) * 3600.0)
            && (seconds <= 0.0 ==> v == 0.0)
  {
    var seconds := (points[i].time - points[k].time) as real / 1000000.0;
    if seconds > 0.0 {
      var nm := km(points[k], points[i]) / KM_PER_NM;
      assert nm * 1.852 == km(points[k], points[i]);
      var v := nm * 3600.0 / seconds;
      assert v * seconds == nm * 3600.0;
      assert v * 1.852 * seconds == (v * seconds) * 1.852;
    }
  }
}
