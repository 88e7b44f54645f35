/** From the split to the airborne periods: what was flown on the whole track is
    flown in the groups, and when a landing between two flights goes uncounted. */
module FlownFacts {
  import opened Track
  import opened Split
  import opened SplitFacts
  import opened Airborne
  import opened AirborneFacts

  /** Points a..b were flown: fast and recorded without a gap, for SUSTAIN or more,
      and neither end can be extended. */
  ghost predicate FastPiece(pts: seq<TrackPoint>, a: nat, b: nat) {
    && a <= b < |pts|
    && (forall k :: a <= k <= b ==> Fast(pts[k]))
    && Unbroken(pts, a, b)
    && (a > 0 && Fast(pts[a - 1]) ==> RecordingGap(pts, a - 1))
    && (b + 1 < |pts| && Fast(pts[b + 1]) ==> RecordingGap(pts, b))
    && Elapsed(pts, a, b) >= SUSTAIN
  }

  /** Points a..b of the track are a sustained run of group g. */
  ghost predicate RunOf(pts: seq<TrackPoint>, g: Slice, a: nat, b: nat) {
    && g.lo <= a <= b < g.hi <= |pts|
    && SustainedRun(Points(pts, g), Period(a - g.lo, b - g.lo))
  }

  /** Two neighbouring fast points are in the same groups unless a gap parts them. */
  lemma NeighboursTogether(pts: seq<TrackPoint>, gs: seq<Slice>, k: nat, g: nat)
    requires Sorted(pts) && IsSplit(pts, gs) && g < |gs|
    requires k + 1 < |pts| && Fast(pts[k]) && Fast(pts[k + 1]) && !RecordingGap(pts, k)
    ensures InGroup(gs[g], k) <==> InGroup(gs[g], k + 1)
  {
    hide IsSplit;
    SplitIsExact(pts, gs, k, k + 1);
    FastInExactlyOneGroup(pts, gs, k);
    FastInExactlyOneGroup(pts, gs, k + 1);
  }

  lemma {:induction false} PieceTogether(pts: seq<TrackPoint>, gs: seq<Slice>, a: nat, b: nat, g: nat)
    requires Sorted(pts) && IsSplit(pts, gs) && g < |gs| && InGroup(gs[g], a)
    requires a <= b < |pts| && Unbroken(pts, a, b) && forall k :: a <= k <= b ==> Fast(pts[k])
    ensures InGroup(gs[g], b)
    decreases b
  {
    hide IsSplit;
    if a < b {
      PieceTogether(pts, gs, a, b - 1, g);
      NeighboursTogether(pts, gs, b - 1, g);
    }
  }

  /** A flown piece is a sustained run of the group that holds its first point... */
  lemma PieceIsRun(pts: seq<TrackPoint>, gs: seq<Slice>, a: nat, b: nat, g: nat)
    requires Sorted(pts) && IsSplit(pts, gs) && g < |gs| && FastPiece(pts, a, b) && InGroup(gs[g], a)
    ensures RunOf(pts, gs[g], a, b)
  {
    PieceTogether(pts, gs, a, b, g);
    NoGapInGroup(pts, gs, g);
    hide IsSplit, Sorted;
  }

  /** ...and every sustained run of a group is a flown piece. */
  lemma RunIsPiece(pts: seq<TrackPoint>, gs: seq<Slice>, a: nat, b: nat, g: nat)
    requires Sorted(pts) && IsSplit(pts, gs) && g < |gs| && RunOf(pts, gs[g], a, b)
    ensures FastPiece(pts, a, b)
  {
    hide IsSplit;
    NoGapInGroup(pts, gs, g);
    var t, r := Points(pts, gs[g]), Period(a - gs[g].lo, b - gs[g].lo);
    forall k | a <= k <= b
      ensures Fast(pts[k])
    {
      assert t[k - gs[g].lo] == pts[k];
    }
    assert r.first > 0 ==> t[r.first - 1] == pts[a - 1];
    assert r.last + 1 < |t| ==> t[r.last + 1] == pts[b + 1];
    if a > 0 && Fast(pts[a - 1]) && !RecordingGap(pts, a - 1) {
      NeighboursTogether(pts, gs, a - 1, g);
    }
    if b + 1 < |pts| && Fast(pts[b + 1]) && !RecordingGap(pts, b) {
      NeighboursTogether(pts, gs, b, g);
    }
  }

  /** The sustained runs of the groups are exactly the pieces flown on the whole track,
      each in one group only. */
  lemma RunsAreFlownPieces(pts: seq<TrackPoint>, gs: seq<Slice>, a: nat, b: nat)
    requires Sorted(pts) && IsSplit(pts, gs)
    ensures FastPiece(pts, a, b) <==> exists g :: 0 <= g < |gs| && RunOf(pts, gs[g], a, b)
    ensures forall g, h :: 0 <= g < h < |gs| ==> !(RunOf(pts, gs[g], a, b) && RunOf(pts, gs[h], a, b))
  {
    hide IsSplit, FastPiece, Sorted;
    if FastPiece(pts, a, b) {
      assert a < |pts| && Fast(pts[a]) by { PieceFast(pts, a, b); }
      FastInExactlyOneGroup(pts, gs, a);
      var g :| 0 <= g < |gs| && InGroup(gs[g], a);
      PieceIsRun(pts, gs, a, b, g);
    }
    forall g | 0 <= g < |gs| && RunOf(pts, gs[g], a, b)
      ensures FastPiece(pts, a, b) && a < |pts| && Fast(pts[a]) && InGroup(gs[g], a)
    {
      RunIsPiece(pts, gs, a, b, g);
      PieceFast(pts, a, b);
    }
    if a < |pts| && Fast(pts[a]) {
      FastInExactlyOneGroup(pts, gs, a);
    }
  }

  lemma PieceFast(pts: seq<TrackPoint>, a: nat, b: nat)
    requires FastPiece(pts, a, b)
    ensures a <= b < |pts| && Fast(pts[a]) && Fast(pts[b])
  {
  }

  // ---------------------------------------------------------------- Uncounted landings

  /** The aircraft was slow long enough for two flights, but never parked in between. */
  ghost predicate RollsOn(pts: seq<TrackPoint>, e: nat) {
    exists j: nat :: LongStretch(pts, e, j) && NeverParked(pts, e, j)
  }

  /** A group before the last ends at a fast point exactly if the recording stops
      there, or the aircraft rolls on from there. */
  lemma EndsInFlight(pts: seq<TrackPoint>, gs: seq<Slice>, e: nat)
    requires IsSplit(pts, gs) && e + 1 < |pts| && Fast(pts[e])
    ensures (exists g :: 0 <= g < |gs| && gs[g].hi == e + 1) <==> RecordingGap(pts, e) || RollsOn(pts, e)
  {
    var cuts: seq<Cut> :| SplitBy(pts, gs, cuts);
    hide LongStretch, NeverParked;
    CutEndsFast(pts, cuts, e);
    if c :| c in cuts && c.end == e {
      var g :| 0 <= g < |cuts| && cuts[g] == c;
      assert gs[g].hi == e + 1;
    }
  }

  lemma CutEndsFast(pts: seq<TrackPoint>, cuts: seq<Cut>, e: nat)
    requires CutsBefore(pts, cuts, |pts|) && e + 1 < |pts| && Fast(pts[e])
    ensures (exists c :: c in cuts && c.end == e) <==> RecordingGap(pts, e) || RollsOn(pts, e)
  {
    if c :| c in cuts && c.end == e {
      assert IsCut(pts, c);
    }
    if RollsOn(pts, e) {
      var j: nat :| LongStretch(pts, e, j) && NeverParked(pts, e, j);
      assert StretchCut(pts, e, j, cuts);
    }
  }

  /** The landing that ends piece a..e is not counted: its group stops at e. */
  ghost predicate Uncounted(pts: seq<TrackPoint>, g: Slice, ps: seq<Period>, e: nat)
    requires g.lo <= g.hi <= |pts|
  {
    ps != [] && g.lo + ps[|ps| - 1].last == e && Landings(g.hi - g.lo, ps) == |ps| - 1
  }

  /** The landing after a flown piece goes uncounted exactly if the recording ends or
      stops with it, or the aircraft then rolls on, without parking, until it takes
      off again: the split leaves the whole taxi out, and the slow points that would
      show the landing with it. */
  lemma UncountedIff(pts: seq<TrackPoint>, gs: seq<Slice>, g: nat, ps: seq<Period>, a: nat, e: nat)
    requires Sorted(pts) && IsSplit(pts, gs) && g < |gs| && gs[g].lo <= gs[g].hi <= |pts|
    requires FastPiece(pts, a, e) && InGroup(gs[g], e) && IsPeriods(Points(pts, gs[g]), ps)
    ensures Uncounted(pts, gs[g], ps, e) <==> e + 1 == |pts| || RecordingGap(pts, e) || RollsOn(pts, e)
  {
    hide IsSplit, IsPeriods, Sorted, RollsOn, FastPiece;
    PieceFast(pts, a, e);
    var t := Points(pts, gs[g]);
    PeriodsListed(t, ps);
    LandingCount(|t|, ps);
    RunsAreFlownPieces(pts, gs, a, e);
    FastInExactlyOneGroup(pts, gs, e);
    assert RunOf(pts, gs[g], a, e);
    UncountedAtEnd(pts, gs[g], ps, a, e);
    if e + 1 < |pts| {
      EndsInFlight(pts, gs, e);
      GroupsInOrder(pts, gs);
    } else {
      GroupsInOrder(pts, gs);
    }
  }

  /** That is, exactly if the group ends with the piece. */
  lemma UncountedAtEnd(pts: seq<TrackPoint>, g: Slice, ps: seq<Period>, a: nat, e: nat)
    requires RunOf(pts, g, a, e) && IsPeriods(Points(pts, g), ps)
    ensures Uncounted(pts, g, ps, e) <==> g.hi == e + 1
  {
    hide IsPeriods, SustainedRun;
    var t := Points(pts, g);
    PeriodsListed(t, ps);
    LandingCount(|t|, ps);
    if g.hi == e + 1 {
      FlyingToTheEnd(t, ps, Period(a - g.lo, e - g.lo));
    }
  }

  lemma FlyingToTheEnd(pts: seq<TrackPoint>, ps: seq<Period>, r: Period)
    requires IsPeriods(pts, ps) && SustainedRun(pts, r) && r.last == |pts| - 1
    ensures ps != [] && ps[|ps| - 1].last == |pts| - 1
  {
    hide IsPeriods, BeginsAt, EndsAt;
    assert Landing(pts, r);
    PeriodsListed(pts, ps);
    assert HasLast(ps, r.last) by { LandingListed(pts, ps, r); }
    var g :| 0 <= g < |ps| && ps[g].last == r.last;
  }

  // ---------------------------------------------------------------- A landing lost

  /** Two flights with six minutes of taxiing in between, never parked. */
  ghost predicate TaxiTrack(pts: seq<TrackPoint>) {
    && |pts| == 8
    && (forall k :: 0 <= k < 8 ==> (Fast(pts[k]) <==> k <= 1 || k == 5 || k == 6))
    && (forall k :: 0 <= k < 7 ==> !Parked(pts[k]))
    && pts[0].time == 0 && pts[1].time == 30 * SECOND && pts[2].time == 40 * SECOND && pts[3].time == 200 * SECOND
    && pts[4].time == 399 * SECOND && pts[5].time == 400 * SECOND && pts[6].time == 430 * SECOND
      && pts[7].time == 440 * SECOND
  }

  function At(speed: real, seconds: int): TrackPoint {
    TrackPoint(0.0, 0.0, 0.0, speed, seconds * SECOND)
  }

  /** At 60 knots, then 10, then 60 again, and stopped at the end. */
  lemma SomeTaxiTrack() returns (pts: seq<TrackPoint>)
    ensures TaxiTrack(pts)
  {
    pts := [At(60.0, 0), At(60.0, 30), At(10.0, 40), At(10.0, 200), At(10.0, 399), At(60.0, 400), At(60.0, 430),
            At(0.0, 440)];
  }

  /** `ps` lists the sustained runs, in order and SUSTAIN or more apart. */
  ghost predicate ListsRuns(pts: seq<TrackPoint>, ps: seq<Period>) {
    && Airborne.InOrder(ps)
    && (forall r :: SustainedRun(pts, r) <==> r in ps)
    && (forall r, q :: r in ps && q in ps && r.last < q.first < |pts| ==> Elapsed(pts, r.last, q.first) >= SUSTAIN)
  }

  /** Runs that are far apart are periods by themselves. */
  lemma RunsArePeriods(pts: seq<TrackPoint>, ps: seq<Period>)
    requires ListsRuns(pts, ps)
    ensures IsPeriods(pts, ps)
  {
    forall r | r in ps
      ensures TakeOff(pts, r) && Landing(pts, r)
    {
      assert SustainedRun(pts, r);
      forall q | SustainedRun(pts, q)
        ensures q.last < r.first ==> Elapsed(pts, q.last, r.first) >= SUSTAIN
        ensures r.last < q.first ==> Elapsed(pts, r.last, q.first) >= SUSTAIN
      {
        assert q in ps;
      }
    }
    hide TakeOff, Landing, SustainedRun;
    assert forall r :: TakeOff(pts, r) || Landing(pts, r) ==> r in ps by { PeriodsOfRuns(pts); }
    PeriodsByRuns(pts, ps);
  }

  lemma PeriodsOfRuns(pts: seq<TrackPoint>)
    ensures forall r :: TakeOff(pts, r) || Landing(pts, r) ==> SustainedRun(pts, r)
  {
  }

  lemma RunBeginsAndEnds(pts: seq<TrackPoint>, r: Period)
    requires TakeOff(pts, r) && Landing(pts, r)
    ensures r.first <= r.last < |pts| && BeginsAt(pts, r.first) && EndsAt(pts, r.last)
  {
  }

  lemma PeriodsByRuns(pts: seq<TrackPoint>, ps: seq<Period>)
    requires ListsRuns(pts, ps) && forall r :: r in ps <==> TakeOff(pts, r)
    requires forall r :: r in ps <==> Landing(pts, r)
    ensures IsPeriods(pts, ps)
  {
    hide TakeOff, Landing, SustainedRun, BeginsAt, EndsAt;
    forall g | 0 <= g < |ps|
      ensures ps[g].first <= ps[g].last < |pts| && BeginsAt(pts, ps[g].first) && EndsAt(pts, ps[g].last)
    {
      assert ps[g] in ps;
      RunBeginsAndEnds(pts, ps[g]);
    }
    forall r | r in ps
      ensures HasFirst(ps, r.first) && HasLast(ps, r.last)
    {
      var g :| 0 <= g < |ps| && ps[g] == r;
    }
  }

  lemma TaxiStretch(pts: seq<TrackPoint>, i: nat, j: nat)
    requires TaxiTrack(pts)
    ensures LongStretch(pts, i, j) <==> i == 1 && j == 5
    ensures forall k :: 0 <= k < 7 ==> !RecordingGap(pts, k)
  {
    if LongStretch(pts, i, j) {
      assert Fast(pts[i]);
    }
  }

  lemma TaxiSplit(pts: seq<TrackPoint>)
    requires TaxiTrack(pts)
    ensures IsSplit(pts, [Slice(0, 2), Slice(5, 8)])
  {
    var cuts := [Cut(1, 5)];
    forall i: nat, j: nat
      ensures LongStretch(pts, i, j) <==> i == 1 && j == 5
    {
      TaxiStretch(pts, i, j);
    }
    TaxiStretch(pts, 1, 5);
    hide LongStretch;
    assert StopCut(pts, 1, 5, cuts[0]);
    assert IsCut(pts, cuts[0]);
    assert cuts[0] in cuts && StretchCut(pts, 1, 5, cuts);
    assert CutsBefore(pts, cuts, |pts|);
    assert Groups(|pts|, cuts) == [Slice(0, 2), Slice(5, 8)];
    assert SplitBy(pts, [Slice(0, 2), Slice(5, 8)], cuts);
  }

  lemma TaxiRuns(pts: seq<TrackPoint>)
    requires TaxiTrack(pts)
    ensures ListsRuns(pts, [Period(0, 1), Period(5, 6)])
  {
    var ps := [Period(0, 1), Period(5, 6)];
    forall r
      ensures SustainedRun(pts, r) <==> r in ps
    {
      if SustainedRun(pts, r) {
        assert Fast(pts[r.first]) && Fast(pts[r.last]);
        if r.first <= 1 { OnlyRunFrom(pts, 0, 1); } else { OnlyRunFrom(pts, 5, 6); }
      }
    }
  }

  lemma TaxiLegRuns(pts: seq<TrackPoint>, leg: seq<TrackPoint>)
    requires TaxiTrack(pts) && (leg == pts[0..2] || leg == pts[5..8])
    ensures ListsRuns(leg, [Period(0, 1)])
  {
    OnlyRunFrom(leg, 0, 1);
    forall r
      ensures SustainedRun(leg, r) <==> r in [Period(0, 1)]
    {
      if SustainedRun(leg, r) {
        assert Fast(leg[r.first]);
      }
    }
  }

  lemma TaxiLandings()
    ensures Landings(8, [Period(0, 1), Period(5, 6)]) == 2
    ensures Landings(2, [Period(0, 1)]) == 0 && Landings(3, [Period(0, 1)]) == 1
  {
    LandingCount(8, [Period(0, 1), Period(5, 6)]);
    LandingCount(2, [Period(0, 1)]);
    LandingCount(3, [Period(0, 1)]);
  }

  /** The whole track has two landings; its groups, and there is only one way to
      split it, have one together. */
  lemma LandingLost(pts: seq<TrackPoint>)
    requires TaxiTrack(pts)
    ensures Sorted(pts) && IsSplit(pts, [Slice(0, 2), Slice(5, 8)])
    ensures IsPeriods(pts, [Period(0, 1), Period(5, 6)]) && Landings(8, [Period(0, 1), Period(5, 6)]) == 2
    ensures IsPeriods(pts[0..2], [Period(0, 1)]) && Landings(2, [Period(0, 1)]) == 0
    ensures IsPeriods(pts[5..8], [Period(0, 1)]) && Landings(3, [Period(0, 1)]) == 1
  {
    hide IsSplit, ListsRuns, IsPeriods, Landings;
    TaxiSplit(pts);
    TaxiRuns(pts);
    TaxiLegRuns(pts, pts[0..2]);
    TaxiLegRuns(pts, pts[5..8]);
    RunsArePeriods(pts, [Period(0, 1), Period(5, 6)]);
    RunsArePeriods(pts[0..2], [Period(0, 1)]);
    RunsArePeriods(pts[5..8], [Period(0, 1)]);
    TaxiLandings();
  }
}
