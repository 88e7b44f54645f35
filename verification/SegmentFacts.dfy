/** What a detected segment says, read off the points of its group. */
module SegmentFacts {
  import opened Options
  import opened Track
  import opened Segments
  import Split
  import opened Airborne
  import AirborneFacts

  /** No sustained run of the group begins before r... */
  ghost predicate Earliest(g: seq<TrackPoint>, r: Period) {
    SustainedRun(g, r) && forall q :: SustainedRun(g, q) ==> r.first <= q.first
  }

  /** ...and none ends after r. */
  ghost predicate Latest(g: seq<TrackPoint>, r: Period) {
    SustainedRun(g, r) && forall q :: SustainedRun(g, q) ==> q.last <= r.last
  }

  /** A segment takes off where its earliest sustained run begins, lands where the
      latest ends, and does neither if there is no such run. */
  ghost predicate FliesAsRecorded(seg: FlightSegment, g: seq<TrackPoint>) {
    && (forall r :: Earliest(g, r) ==> seg.takeoff == Some(g[r.first].time))
    && (forall r :: Latest(g, r) ==> seg.landing == Some(g[r.last].time))
    && ((forall r :: !SustainedRun(g, r)) ==> seg.takeoff.None? && seg.landing.None? && seg.groundOnly)
    && ((exists r :: SustainedRun(g, r)) ==>
          !seg.groundOnly && (exists r :: Earliest(g, r)) && exists r :: Latest(g, r))
  }

  /** One landing for each airborne period, but for one that the group ends in. */
  ghost predicate LandsAsRecorded(seg: FlightSegment, g: seq<TrackPoint>) {
    forall ps: seq<Period> :: IsPeriods(g, ps) ==>
      seg.landingCount
      == |ps| - if ps != [] && ps[|ps| - 1].last == |g| - 1 then 1 else 0
  }

  /** `looked` if a lookup makes sense and finds a name, else the file's hint. */
  ghost predicate PlaceIs(place: Place, inFlight: bool, looked: Place, hint: Place) {
    if !inFlight && looked.Some? && looked.value != "" then place == looked else place == hint
  }

  /** Departure at the first point, arrival at the last, unless recorded in flight. */
  ghost predicate PlacesAsRecorded(seg: FlightSegment, g: seq<TrackPoint>, resolve: (real, real) -> Place,
                                   hintDep: Place, hintArr: Place)
    requires g != []
  {
    var last := g[|g| - 1];
    && PlaceIs(seg.departure, seg.takeoff.Some? && seg.takeoff.value - g[0].time < 10 * SECOND,
               resolve(g[0].lat, g[0].lon), hintDep)
    && PlaceIs(seg.arrival, seg.landing.Some? && last.time - seg.landing.value < 10 * SECOND,
               resolve(last.lat, last.lon), hintArr)
    && seg.hintDeparture == hintDep && seg.hintArrival == hintArr
  }

  lemma PeriodsBeginAndEnd(g: seq<TrackPoint>, ps: seq<Period>, r: Period)
    requires IsPeriods(g, ps)
    ensures Earliest(g, r) ==> ps != [] && ps[0].first == r.first
    ensures Latest(g, r) ==> ps != [] && ps[|ps| - 1].last == r.last
  {
    if Earliest(g, r) { FirstBegins(g, ps, r); }
    if Latest(g, r) { LastEnds(g, ps, r); }
  }

  lemma FirstBegins(g: seq<TrackPoint>, ps: seq<Period>, r: Period)
    requires IsPeriods(g, ps) && Earliest(g, r)
    ensures ps != [] && ps[0].first == r.first
  {
    hide IsPeriods, BeginsAt, SustainedRun, TakeOff;
    EarliestTakesOff(g, r);
    AirborneFacts.TakeOffListed(g, ps, r);
    AirborneFacts.PeriodsListed(g, ps);
    var k :| 0 <= k < |ps| && ps[k].first == r.first;
    PeriodEnds(g, ps);
    RunsFromPeriods(g, ps[0].first);
  }

  lemma LastEnds(g: seq<TrackPoint>, ps: seq<Period>, r: Period)
    requires IsPeriods(g, ps) && Latest(g, r)
    ensures ps != [] && ps[|ps| - 1].last == r.last
  {
    hide IsPeriods, EndsAt, SustainedRun, Landing;
    LatestLands(g, r);
    AirborneFacts.LandingListed(g, ps, r);
    AirborneFacts.PeriodsListed(g, ps);
    var k :| 0 <= k < |ps| && ps[k].last == r.last;
    PeriodEnds(g, ps);
    RunsToPeriods(g, ps[|ps| - 1].last);
  }

  lemma EarliestTakesOff(g: seq<TrackPoint>, r: Period)
    requires Earliest(g, r)
    ensures TakeOff(g, r)
  {
  }

  lemma LatestLands(g: seq<TrackPoint>, r: Period)
    requires Latest(g, r)
    ensures Landing(g, r)
  {
  }

  lemma RunsFromPeriods(g: seq<TrackPoint>, first: nat)
    requires BeginsAt(g, first)
    ensures exists q :: SustainedRun(g, q) && q.first == first
  {
  }

  lemma RunsToPeriods(g: seq<TrackPoint>, last: nat)
    requires EndsAt(g, last)
    ensures exists q :: SustainedRun(g, q) && q.last == last
  {
  }

  /** The first period begins with the earliest run, the last ends with the latest. */
  lemma EndsOfPeriods(g: seq<TrackPoint>, ps: seq<Period>) returns (first: Period, last: Period)
    requires Sorted(g) && IsPeriods(g, ps) && ps != []
    ensures Earliest(g, first) && Latest(g, last)
  {
    hide IsPeriods, SustainedRun, Sorted, BeginsAt, EndsAt;
    PeriodEnds(g, ps);
    RunsFromPeriods(g, ps[0].first);
    RunsToPeriods(g, ps[|ps| - 1].last);
    first :| SustainedRun(g, first) && first.first == ps[0].first;
    last :| SustainedRun(g, last) && last.last == ps[|ps| - 1].last;
    forall q | SustainedRun(g, q)
      ensures first.first <= q.first && q.last <= last.last
    {
      RunWithinSpan(g, ps, q);
    }
  }

  lemma RunWithinSpan(g: seq<TrackPoint>, ps: seq<Period>, r: Period)
    requires Sorted(g) && IsPeriods(g, ps) && SustainedRun(g, r) && ps != []
    ensures ps[0].first <= r.first && r.last <= ps[|ps| - 1].last
  {
    hide IsPeriods, SustainedRun, Sorted;
    AirborneFacts.PeriodsListed(g, ps);
    var k := AirborneFacts.RunInSomePeriod(g, ps, r);
  }

  lemma PeriodEnds(g: seq<TrackPoint>, ps: seq<Period>)
    requires IsPeriods(g, ps) && ps != []
    ensures BeginsAt(g, ps[0].first) && EndsAt(g, ps[|ps| - 1].last)
  {
  }

  lemma SegmentAsRecorded(seg: FlightSegment, g: seq<TrackPoint>, resolve: (real, real) -> Place, hintDep: Place,
                          hintArr: Place)
    requires g != [] && Sorted(g) && IsSegmentOf(seg, g, resolve, hintDep, hintArr)
    ensures FliesAsRecorded(seg, g) && LandsAsRecorded(seg, g) && PlacesAsRecorded(seg, g, resolve, hintDep, hintArr)
  {
    hide IsPeriods, SustainedRun, FliesAsRecorded, LandsAsRecorded, AirborneFacts.Landings, Sorted;
    var ps: seq<Period> :| IsPeriods(g, ps)
      && (forall p :: p in ps ==> p.first <= p.last < |g|)
      && seg == SegmentOf(g, ps, AirborneFacts.Landings(|g|, ps), resolve, hintDep, hintArr);
    assert ps != [] ==> ps[0] in ps && ps[|ps| - 1] in ps;
    Flies(seg, g, ps);
    Lands(seg, g, ps);
  }

  lemma Flies(seg: FlightSegment, g: seq<TrackPoint>, ps: seq<Period>)
    requires Sorted(g) && IsPeriods(g, ps) && (seg.groundOnly <==> ps == [])
    requires ps == [] ==> seg.takeoff.None? && seg.landing.None?
    requires ps != [] ==> ps[0].first < |g| && seg.takeoff == Some(g[ps[0].first].time)
    requires ps != [] ==> ps[|ps| - 1].last < |g| && seg.landing == Some(g[ps[|ps| - 1].last].time)
    ensures FliesAsRecorded(seg, g)
  {
    hide IsPeriods, Earliest, Latest, SustainedRun, Sorted;
    AirborneFacts.GroundOnlyIffNeverSustained(g, ps);
    forall r
      ensures Earliest(g, r) ==> ps != [] && ps[0].first == r.first
      ensures Latest(g, r) ==> ps != [] && ps[|ps| - 1].last == r.last
    {
      PeriodsBeginAndEnd(g, ps, r);
    }
    if ps != [] {
      var first, last := EndsOfPeriods(g, ps);
    }
  }

  lemma Lands(seg: FlightSegment, g: seq<TrackPoint>, ps: seq<Period>)
    requires IsPeriods(g, ps) && seg.landingCount == AirborneFacts.Landings(|g|, ps)
    ensures LandsAsRecorded(seg, g)
  {
    hide IsPeriods;
    AirborneFacts.PeriodsListed(g, ps);
    AirborneFacts.LandingCount(|g|, ps);
    forall qs: seq<Period> | IsPeriods(g, qs)
      ensures qs == ps
    {
      AirborneFacts.PeriodsUnique(g, qs, ps);
    }
  }

  /** Of every track and every split of it: take-off, landing, landings and places of
      each segment are those its points tell. Only the first segment may depart from
      the file's hint, and only the last arrive there. */
  lemma DetectedAsRecorded(pts: seq<TrackPoint>, gs: seq<Split.Slice>, segs: seq<FlightSegment>,
                           resolve: (real, real) -> Place, hintDep: Place, hintArr: Place, k: nat)
    requires Sorted(pts) && DetectedFrom(pts, gs, segs, resolve, hintDep, hintArr) && k < |segs|
    ensures |gs| == |segs| && gs[k].lo < gs[k].hi <= |pts|
    ensures var g := pts[gs[k].lo..gs[k].hi];
            && FliesAsRecorded(segs[k], g) && LandsAsRecorded(segs[k], g)
            && PlacesAsRecorded(segs[k], g, resolve, if k == 0 then hintDep else None,
                                if k == |segs| - 1 then hintArr else None)
  {
    hide Split.IsSplit, IsSegmentOf, FliesAsRecorded, LandsAsRecorded;
    SegmentAsRecorded(segs[k], Split.Points(pts, gs[k]), resolve, HintAt(k == 0, hintDep),
                      HintAt(k == |gs| - 1, hintArr));
  }
}
