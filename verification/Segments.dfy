/** Flight segments: detect_segments builds them from the groups of a track, and
    merge_segments_logged_as_one joins those that the logbook counts as one. */
module Segments {
  import opened Options
  import opened Track
  import Split
  import Airborne
  import AirborneFacts
  import SplitFacts

  type Place = Option<string>

  datatype FlightSegment = FlightSegment(
    trackpoints: seq<TrackPoint>,
    blockOff: int,
    takeoff: Option<int>,
    landing: Option<int>,
    blockOn: int,
    departure: Place,
    arrival: Place,
    landingCount: nat,
    groundOnly: bool,
    hintDeparture: Place,
    hintArrival: Place,
    airborne: Option<int>)
  {
    /** Block time: flight_time_raw_h, in microseconds. */
    function BlockTime(): int {
      blockOn - blockOff
    }
  }

  datatype LoggedWindow = LoggedWindow(start: int, end: int, departure: Place, arrival: Place)

  const IN_FLIGHT_EDGE := 10 * SECOND
  const LOGGED_WINDOW_TOLERANCE := 900 * SECOND

  // ---------------------------------------------------------------- Detection

  /** Python's `a or b` on optional strings. */
  function OrElse(a: Place, b: Place): Place {
    if a.None? || a.value == "" then b else a
  }

  function DepartureOf(g: seq<TrackPoint>, ps: seq<Airborne.Period>, resolve: (real, real) -> Place, hint: Place): Place
    requires g != [] && forall p :: p in ps ==> p.first <= p.last < |g|
  {
    var startedFlying := ps != [] && Elapsed(g, 0, ps[0].first) < IN_FLIGHT_EDGE;
    OrElse(if startedFlying then None else resolve(g[0].lat, g[0].lon), hint)
  }

  function ArrivalOf(g: seq<TrackPoint>, ps: seq<Airborne.Period>, resolve: (real, real) -> Place, hint: Place): Place
    requires g != [] && forall p :: p in ps ==> p.first <= p.last < |g|
  {
    var end := |g| - 1;
    var endedFlying := ps != [] && Elapsed(g, ps[|ps| - 1].last, end) < IN_FLIGHT_EDGE;
    OrElse(if endedFlying then None else resolve(g[end].lat, g[end].lon), hint)
  }

  /** Only the first (last) group may take the file's departure (arrival) hint. */
  function HintAt(here: bool, hint: Place): Place {
    if here then hint else None
  }

  /** The segment of group `g`, with airborne periods `ps`. */
  function SegmentOf(g: seq<TrackPoint>, ps: seq<Airborne.Period>, landings: nat,
                     resolve: (real, real) -> Place, hintDep: Place, hintArr: Place): FlightSegment
    requires g != [] && forall p :: p in ps ==> p.first <= p.last < |g|
  {
    FlightSegment(
      g,
      g[0].time,
      if ps == [] then None else Some(g[ps[0].first].time),
      if ps == [] then None else Some(g[ps[|ps| - 1].last].time),
      g[|g| - 1].time,
      DepartureOf(g, ps, resolve, hintDep),
      ArrivalOf(g, ps, resolve, hintArr),
      landings,
      ps == [],
      hintDep,
      hintArr,
      None)
  }

  /** `seg` is what detection makes of group `g`. */
  ghost predicate IsSegmentOf(seg: FlightSegment, g: seq<TrackPoint>, resolve: (real, real) -> Place, hintDep: Place,
                              hintArr: Place)
    requires g != []
  {
    exists ps: seq<Airborne.Period> ::
      && Airborne.IsPeriods(g, ps)
      && (forall p :: p in ps ==> p.first <= p.last < |g|)
      && seg == SegmentOf(g, ps, AirborneFacts.Landings(|g|, ps), resolve, hintDep, hintArr)
  }

  ghost predicate SegmentsOf(pts: seq<TrackPoint>, gs: seq<Split.Slice>, segs: seq<FlightSegment>,
                             resolve: (real, real) -> Place, hintDep: Place, hintArr: Place)
  {
    && |segs| <= |gs|
    && (forall g :: 0 <= g < |gs| ==> gs[g].lo < gs[g].hi <= |pts|)
    && (forall g :: 0 <= g < |segs| ==>
          IsSegmentOf(segs[g], Split.Points(pts, gs[g]), resolve, HintAt(g == 0, hintDep),
                      HintAt(g == |gs| - 1, hintArr)))
  }

  /** `segs` are the segments of the groups `gs` that `pts` splits into. */
  ghost predicate DetectedFrom(pts: seq<TrackPoint>, gs: seq<Split.Slice>, segs: seq<FlightSegment>,
                               resolve: (real, real) -> Place, hintDep: Place, hintArr: Place)
  {
    Split.IsSplit(pts, gs) && |segs| == |gs| && SegmentsOf(pts, gs, segs, resolve, hintDep, hintArr)
  }

  method DetectSegments(pts: seq<TrackPoint>, resolve: (real, real) -> Place, hintDep: Place, hintArr: Place)
    returns (segs: seq<FlightSegment>)
    requires Sorted(pts)
    ensures exists gs :: DetectedFrom(pts, gs, segs, resolve, hintDep, hintArr)
  {
    hide Split.IsSplit, IsSegmentOf;
    var groups := Split.Split(pts);
    SplitFacts.GroupsInOrder(pts, groups);
    segs := [];
    for idx := 0 to |groups|
      invariant |segs| == idx && SegmentsOf(pts, groups, segs, resolve, hintDep, hintArr)
    {
      var g := Split.Points(pts, groups[idx]);
      var seg := DetectSegment(g, resolve, HintAt(idx == 0, hintDep), HintAt(idx == |groups| - 1, hintArr));
      segs := segs + [seg];
    }
    assert DetectedFrom(pts, groups, segs, resolve, hintDep, hintArr);
  }

  method DetectSegment(g: seq<TrackPoint>, resolve: (real, real) -> Place, hintDep: Place, hintArr: Place)
    returns (seg: FlightSegment)
    requires g != [] && Sorted(g)
    ensures IsSegmentOf(seg, g, resolve, hintDep, hintArr)
  {
    hide Airborne.IsPeriods;
    var ps := Airborne.AirbornePeriods(g);
    PeriodsIndexed(g, ps);
    var landings := AirborneFacts.CountLandings(g);
    ghost var qs :| Airborne.IsPeriods(g, qs) && landings == AirborneFacts.Landings(|g|, qs);
    AirborneFacts.PeriodsUnique(g, ps, qs);
    seg := SegmentOf(g, ps, landings, resolve, hintDep, hintArr);
  }

  lemma PeriodsIndexed(g: seq<TrackPoint>, ps: seq<Airborne.Period>)
    requires Airborne.IsPeriods(g, ps)
    ensures forall p :: p in ps ==> p.first <= p.last < |g|
  {
  }

  // ---------------------------------------------------------------- What a segment is

  /** The clock of one segment: off blocks, airborne, landed, on blocks. */
  ghost predicate WellTimed(seg: FlightSegment) {
    && seg.trackpoints != [] && Sorted(seg.trackpoints)
    && seg.blockOff == seg.trackpoints[0].time
    && seg.blockOn == seg.trackpoints[|seg.trackpoints| - 1].time
    && (seg.groundOnly <==> seg.takeoff.None?) && (seg.groundOnly <==> seg.landing.None?)
    && (!seg.groundOnly ==> seg.blockOff <= seg.takeoff.value <= seg.landing.value <= seg.blockOn)
  }

  /** Segments follow each other; each ends no later than the next begins. */
  ghost predicate InSequence(segs: seq<FlightSegment>) {
    && (forall g :: 0 <= g < |segs| ==> WellTimed(segs[g]))
    && (forall g, h :: 0 <= g < h < |segs| ==> segs[g].blockOn <= segs[h].blockOff)
  }

  lemma SegmentWellTimed(seg: FlightSegment, g: seq<TrackPoint>, resolve: (real, real) -> Place, hintDep: Place,
                         hintArr: Place)
    requires g != [] && Sorted(g) && IsSegmentOf(seg, g, resolve, hintDep, hintArr)
    ensures WellTimed(seg) && seg.trackpoints == g
  {
    hide Airborne.IsPeriods, AirborneFacts.Landings;
    var ps: seq<Airborne.Period> :| Airborne.IsPeriods(g, ps)
      && (forall p :: p in ps ==> p.first <= p.last < |g|)
      && seg == SegmentOf(g, ps, AirborneFacts.Landings(|g|, ps), resolve, hintDep, hintArr);
    if ps != [] {
      PeriodsSpan(g, ps);
    }
  }

  lemma PeriodsSpan(g: seq<TrackPoint>, ps: seq<Airborne.Period>)
    requires Airborne.IsPeriods(g, ps) && ps != []
    ensures ps[0] in ps && ps[|ps| - 1] in ps && ps[0].first <= ps[|ps| - 1].last
  {
    PeriodsIndexed(g, ps);
  }

  lemma DetectedInSequence(pts: seq<TrackPoint>, gs: seq<Split.Slice>, segs: seq<FlightSegment>,
                           resolve: (real, real) -> Place, hintDep: Place, hintArr: Place)
    requires Sorted(pts) && DetectedFrom(pts, gs, segs, resolve, hintDep, hintArr)
    ensures InSequence(segs)
    ensures forall g :: 0 <= g < |segs| ==> segs[g].trackpoints == Split.Points(pts, gs[g])
  {
    hide Split.IsSplit, IsSegmentOf;
    SplitFacts.GroupsInOrder(pts, gs);
    forall g | 0 <= g < |segs|
      ensures WellTimed(segs[g]) && segs[g].trackpoints == Split.Points(pts, gs[g])
    {
      SegmentWellTimed(segs[g], Split.Points(pts, gs[g]), resolve, HintAt(g == 0, hintDep),
                       HintAt(g == |gs| - 1, hintArr));
    }
    forall g, h | 0 <= g < h < |segs|
      ensures segs[g].blockOn <= segs[h].blockOff
    {
      assert gs[g].hi <= gs[h].lo + 1;
    }
  }
}
