/** Joining the segments that one logbook flight records as one:
    _same_place, _recorded_throughout, _logged_run_end, _merge_run and
    merge_segments_logged_as_one. */
module Merge {
  import opened Options
  import opened Track
  import opened Segments

  /** Python's bisect_left: how many points of a sorted track lie before t. */
  function BisectLeft(pts: seq<TrackPoint>, t: int): (lo: nat)
    requires Sorted(pts)
    ensures lo <= |pts|
    ensures forall k :: 0 <= k < lo ==> pts[k].time < t
    ensures forall k :: lo <= k < |pts| ==> t <= pts[k].time
  {
    if pts == [] then 0
    else if pts[|pts| - 1].time < t then |pts|
    else BisectLeft(pts[..|pts| - 1], t)
  }

  /** Python's bisect_right: how many points of a sorted track lie at or before t. */
  function BisectRight(pts: seq<TrackPoint>, t: int): (hi: nat)
    requires Sorted(pts)
    ensures hi <= |pts|
    ensures forall k :: 0 <= k < hi ==> pts[k].time <= t
    ensures forall k :: hi <= k < |pts| ==> t < pts[k].time
  {
    if pts == [] then 0
    else if pts[|pts| - 1].time <= t then |pts|
    else BisectRight(pts[..|pts| - 1], t)
  }

  predicate SamePlace(a: Place, b: Place) {
    a.None? || a.value == "" || b.None? || b.value == "" || a == b
  }

  predicate RecordedThroughout(pts: seq<TrackPoint>, start: int, end: int)
    requires Sorted(pts)
  {
    forall k :: BisectLeft(pts, start) <= k < BisectRight(pts, end) - 1 ==> !RecordingGap(pts, k)
  }

  // ---------------------------------------------------------------- Which run is one flight

  /** Segment k + 1 may follow segment k in one logged flight, whichever it is. */
  predicate Links(pts: seq<TrackPoint>, segs: seq<FlightSegment>, k: nat)
    requires Sorted(pts) && k + 1 < |segs|
  {
    && !segs[k + 1].groundOnly
    && SamePlace(segs[k].arrival, segs[k + 1].departure)
    && RecordedThroughout(pts, segs[k].blockOn, segs[k + 1].blockOff)
  }

  predicate Starts(w: LoggedWindow, seg: FlightSegment) {
    && !seg.groundOnly
    && w.start - LOGGED_WINDOW_TOLERANCE <= seg.blockOff
    && SamePlace(seg.departure, w.departure)
  }

  predicate EndsBy(w: LoggedWindow, seg: FlightSegment) {
    seg.blockOn <= w.end + LOGGED_WINDOW_TOLERANCE
  }

  /** The chain goes on from segment m to the next within the window. */
  ghost predicate Continues(pts: seq<TrackPoint>, segs: seq<FlightSegment>, w: LoggedWindow, m: nat)
    requires Sorted(pts) && m + 1 < |segs|
  {
    Links(pts, segs, m) && EndsBy(w, segs[m + 1])
  }

  /** Segments i..k link up, each ending within the window. */
  ghost predicate Reaches(pts: seq<TrackPoint>, segs: seq<FlightSegment>, w: LoggedWindow, i: nat, k: nat)
    requires Sorted(pts)
  {
    && i <= k < |segs|
    && Starts(w, segs[i])
    && forall m :: i <= m < k ==> Continues(pts, segs, w, m)
  }

  /** The logbook flight `w` records segments i..k, two or more, as one. */
  ghost predicate Records(pts: seq<TrackPoint>, segs: seq<FlightSegment>, w: LoggedWindow, i: nat, k: nat)
    requires Sorted(pts)
  {
    i < k && Reaches(pts, segs, w, i, k) && SamePlace(segs[k].arrival, w.arrival)
  }

  /** The longest run from i that some window records; i alone if there is none. */
  ghost predicate IsRunEnd(pts: seq<TrackPoint>, segs: seq<FlightSegment>, ws: seq<LoggedWindow>, i: nat, best: nat)
    requires Sorted(pts)
  {
    && i <= best < |segs|
    && (best > i ==> exists w :: w in ws && Records(pts, segs, w, i, best))
    && (forall w, k: nat :: w in ws && Records(pts, segs, w, i, k) ==> k <= best)
  }

  method LoggedRunEnd(pts: seq<TrackPoint>, segs: seq<FlightSegment>, ws: seq<LoggedWindow>, i: nat) returns (best: nat)
    requires Sorted(pts) && i < |segs|
    ensures IsRunEnd(pts, segs, ws, i, best)
  {
    hide Links, EndsBy, SamePlace, Reaches, IsRunEnd;
    best := i;
    NoWindowYet(pts, segs, i);
    for v := 0 to |ws|
      invariant i <= best < |segs| && IsRunEnd(pts, segs, ws[..v], i, best)
    {
      var w := ws[v];
      ghost var before := best;
      if Starts(w, segs[i]) {
        var k := i;
        ReachesItself(pts, segs, w, i);
        while k + 1 < |segs| && Links(pts, segs, k) && EndsBy(w, segs[k + 1])
          invariant i <= k < |segs| && Reaches(pts, segs, w, i, k)
          invariant before <= best < |segs|
          invariant best > before ==> Records(pts, segs, w, i, best)
          invariant forall m :: i < m <= k && SamePlace(segs[m].arrival, w.arrival) ==> m <= best
        {
          ReachesNext(pts, segs, w, i, k);
          k := k + 1;
          if k > best && SamePlace(segs[k].arrival, w.arrival) {
            best := k;
          }
        }
        NoLongerRun(pts, segs, w, i, k, best);
      } else {
        NeverStarts(pts, segs, w, i);
      }
      NextWindow(pts, segs, ws, i, v, before, best);
    }
    assert ws[..|ws|] == ws;
  }

  lemma NoWindowYet(pts: seq<TrackPoint>, segs: seq<FlightSegment>, i: nat)
    requires Sorted(pts) && i < |segs|
    ensures IsRunEnd(pts, segs, [], i, i)
  {
  }

  lemma NeverStarts(pts: seq<TrackPoint>, segs: seq<FlightSegment>, w: LoggedWindow, i: nat)
    requires Sorted(pts) && i < |segs| && !Starts(w, segs[i])
    ensures forall m: nat :: !Records(pts, segs, w, i, m)
  {
  }

  lemma ReachesItself(pts: seq<TrackPoint>, segs: seq<FlightSegment>, w: LoggedWindow, i: nat)
    requires Sorted(pts) && i < |segs| && Starts(w, segs[i])
    ensures Reaches(pts, segs, w, i, i)
  {
  }

  lemma ReachesNext(pts: seq<TrackPoint>, segs: seq<FlightSegment>, w: LoggedWindow, i: nat, k: nat)
    requires Sorted(pts) && k + 1 < |segs| && Reaches(pts, segs, w, i, k)
    requires Links(pts, segs, k) && EndsBy(w, segs[k + 1])
    ensures Reaches(pts, segs, w, i, k + 1)
  {
    hide Links, EndsBy, Starts, Sorted;
    assert Continues(pts, segs, w, k);
  }

  /** Where the chain of links breaks off, no longer run is recorded. */
  lemma NoLongerRun(pts: seq<TrackPoint>, segs: seq<FlightSegment>, w: LoggedWindow, i: nat, k: nat, best: nat)
    requires Sorted(pts) && i <= k < |segs|
    requires k + 1 < |segs| ==> !Continues(pts, segs, w, k)
    requires forall m :: i < m <= k && SamePlace(segs[m].arrival, w.arrival) ==> m <= best
    ensures forall m: nat :: Records(pts, segs, w, i, m) ==> m <= best
  {
    hide Continues, SamePlace, Starts;
  }

  lemma NextWindow(pts: seq<TrackPoint>, segs: seq<FlightSegment>, ws: seq<LoggedWindow>, i: nat, v: nat, before: nat,
                   best: nat)
    requires Sorted(pts) && v < |ws| && IsRunEnd(pts, segs, ws[..v], i, before)
    requires before <= best < |segs| && (best > before ==> Records(pts, segs, ws[v], i, best))
    requires forall m: nat :: Records(pts, segs, ws[v], i, m) ==> m <= best
    ensures IsRunEnd(pts, segs, ws[..v + 1], i, best)
  {
    hide Records;
    assert ws[v] in ws[..v + 1];
    forall w | w in ws[..v + 1]
      ensures w == ws[v] || w in ws[..v]
    {
    }
    assert forall w :: w in ws[..v] ==> w in ws[..v + 1];
  }

  // ---------------------------------------------------------------- Joining a run

  /** Summed take-off to landing time of the flights in a run. */
  function AirborneTime(run: seq<FlightSegment>): int {
    if run == [] then 0
    else
      var s := run[|run| - 1];
      AirborneTime(run[..|run| - 1])
      + if s.takeoff.Some? && s.landing.Some? then s.landing.value - s.takeoff.value else 0
  }

  function Landings(run: seq<FlightSegment>): nat {
    if run == [] then 0 else Landings(run[..|run| - 1]) + run[|run| - 1].landingCount
  }

  function MergeRun(run: seq<FlightSegment>, pts: seq<TrackPoint>): FlightSegment
    requires Sorted(pts) && run != [] && run[0].trackpoints != [] && run[|run| - 1].trackpoints != []
  {
    var first, last := run[0], run[|run| - 1];
    var lo := BisectLeft(pts, first.trackpoints[0].time);
    var hi := BisectRight(pts, last.trackpoints[|last.trackpoints| - 1].time);
    FlightSegment(
      if lo <= hi then pts[lo..hi] else [],
      first.blockOff,
      first.takeoff,
      last.landing,
      last.blockOn,
      first.departure,
      last.arrival,
      Landings(run),
      false,
      first.hintDeparture,
      last.hintArrival,
      Some(AirborneTime(run)))
  }

  /** A run of one is delivered as it is. */
  function Delivered(run: seq<FlightSegment>, pts: seq<TrackPoint>): FlightSegment
    requires Sorted(pts) && run != [] && run[0].trackpoints != [] && run[|run| - 1].trackpoints != []
  {
    if |run| == 1 then run[0] else MergeRun(run, pts)
  }

  /** Where the r-th run begins; `starts` ends with a sentinel, the end of the last run. */
  ghost predicate Runs(pts: seq<TrackPoint>, segs: seq<FlightSegment>, ws: seq<LoggedWindow>, starts: seq<nat>)
    requires Sorted(pts)
  {
    && |starts| > 0 && starts[0] == 0
    && (forall r :: 0 <= r < |starts| ==> starts[r] <= |segs|)
    && (forall r :: 0 <= r < |starts| - 1 ==>
          starts[r] < starts[r + 1] && IsRunEnd(pts, segs, ws, starts[r], starts[r + 1] - 1))
  }

  ghost predicate AllRecorded(segs: seq<FlightSegment>) {
    forall s :: s in segs ==> s.trackpoints != []
  }

  /** `out` delivers the runs `starts` of `segs`, each joined. */
  ghost predicate MergedBy(pts: seq<TrackPoint>, segs: seq<FlightSegment>, ws: seq<LoggedWindow>,
                           out: seq<FlightSegment>, starts: seq<nat>)
    requires Sorted(pts) && AllRecorded(segs)
  {
    && Runs(pts, segs, ws, starts)
    && |out| == |starts| - 1
    && (forall r :: 0 <= r < |out| ==> out[r] == Delivered(segs[starts[r]..starts[r + 1]], pts))
  }

  ghost predicate IsMerge(pts: seq<TrackPoint>, segs: seq<FlightSegment>, ws: seq<LoggedWindow>,
                          out: seq<FlightSegment>)
    requires Sorted(pts) && AllRecorded(segs)
  {
    exists starts: seq<nat> :: MergedBy(pts, segs, ws, out, starts) && starts[|starts| - 1] == |segs|
  }

  method MergeLoggedAsOne(segs: seq<FlightSegment>, pts: seq<TrackPoint>, ws: seq<LoggedWindow>)
    returns (out: seq<FlightSegment>)
    requires Sorted(pts) && AllRecorded(segs)
    ensures IsMerge(pts, segs, ws, out)
  {
    hide IsRunEnd, MergeRun;
    if |segs| < 2 || |ws| == 0 {
      NothingToMerge(pts, segs, ws);
      return segs;
    }
    out := [];
    ghost var starts: seq<nat> := [0];
    var i := 0;
    while i < |segs|
      invariant i <= |segs| && starts != [] && starts[|starts| - 1] == i
      invariant MergedBy(pts, segs, ws, out, starts)
    {
      var k := LoggedRunEnd(pts, segs, ws, i);
      assert i <= k < |segs| by { RunEndInRange(pts, segs, ws, i, k); }
      var run := segs[i..k + 1];
      assert segs[i] in segs && segs[k] in segs && run[0] == segs[i] && run[|run| - 1] == segs[k];
      out := out + [if k == i then segs[i] else MergeRun(run, pts)];
      starts := starts + [k + 1];
      i := k + 1;
    }
  }

  lemma RunEndInRange(pts: seq<TrackPoint>, segs: seq<FlightSegment>, ws: seq<LoggedWindow>, i: nat, best: nat)
    requires Sorted(pts) && IsRunEnd(pts, segs, ws, i, best)
    ensures i <= best < |segs|
  {
  }

  /** With one segment, or no logged flight, every run is a single segment. */
  lemma NothingToMerge(pts: seq<TrackPoint>, segs: seq<FlightSegment>, ws: seq<LoggedWindow>)
    requires Sorted(pts) && AllRecorded(segs)
    requires forall w, i: nat, k: nat :: w in ws ==> !Records(pts, segs, w, i, k)
    ensures IsMerge(pts, segs, ws, segs)
  {
    var starts: seq<nat> := seq(|segs| + 1, r requires 0 <= r => r);
    forall r | 0 <= r < |segs|
      ensures segs[r] == Delivered(segs[starts[r]..starts[r + 1]], pts)
    {
      assert segs[r] in segs;
    }
    assert MergedBy(pts, segs, ws, segs, starts);
  }
}
