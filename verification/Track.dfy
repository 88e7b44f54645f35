/** GPS track points, the thresholds of app/aircraft/gps_import.py, and the few
    facts about a time-sorted track every later stage needs. Instants are
    integers: microseconds, the resolution of Python's datetime. */
module Track {

  datatype TrackPoint = TrackPoint(lat: real, lon: real, alt: real, speed: real, time: int)

  const SECOND := 1_000_000
  const FLIGHT_SPEED_KT := 30.0
  const GROUND_MOVE_KT := 5.0
  const SEGMENT_GAP := 300 * SECOND
  const SUSTAIN := 30 * SECOND

  predicate Fast(p: TrackPoint) {
    p.speed >= FLIGHT_SPEED_KT
  }

  predicate Parked(p: TrackPoint) {
    p.speed < GROUND_MOVE_KT
  }

  /** What merge_and_sort leaves behind: points in time order. */
  ghost predicate Sorted(pts: seq<TrackPoint>) {
    forall i, j :: 0 <= i <= j < |pts| ==> pts[i].time <= pts[j].time
  }

  /** Elapsed time from point i to point j. */
  function Elapsed(pts: seq<TrackPoint>, i: nat, j: nat): int
    requires i < |pts| && j < |pts|
  {
    pts[j].time - pts[i].time
  }

  /** The recording stopped for SEGMENT_GAP or more after point k. */
  predicate RecordingGap(pts: seq<TrackPoint>, k: nat)
    requires k + 1 < |pts|
  {
    Elapsed(pts, k, k + 1) >= SEGMENT_GAP
  }

  /** No recording gap between points a and b. */
  ghost predicate Unbroken(pts: seq<TrackPoint>, a: nat, b: nat)
    requires b < |pts|
  {
    forall k :: a <= k < b ==> !RecordingGap(pts, k)
  }

  /** Only slow points strictly between i and j. */
  ghost predicate SlowBetween(pts: seq<TrackPoint>, i: nat, j: nat)
    requires j < |pts|
  {
    forall k :: i < k < j ==> !Fast(pts[k])
  }
}
