/** What joining segments keeps: the order, the landings, the recording gaps,
    and, on a second run, everything. */
module MergeFacts {
  import opened Options
  import opened Track
  import opened Segments
  import opened Merge
  import Split
  import SplitFacts

  lemma RunInRange(pts: seq<TrackPoint>, segs: seq<FlightSegment>, ws: seq<LoggedWindow>, starts: seq<nat>, q: nat,
                   r: nat)
    requires Sorted(pts) && Runs(pts, segs, ws, starts) && q <= r < |starts|
    ensures starts[q] + (r - q) <= starts[r] <= |segs|
  {
    if q < r {
      RunInRange(pts, segs, ws, starts, q, r - 1);
    }
  }

  /** The first and last segment of run r, as delivered. */
  lemma DeliveredEnds(pts: seq<TrackPoint>, segs: seq<FlightSegment>, ws: seq<LoggedWindow>, out: seq<FlightSegment>,
                      starts: seq<nat>, r: nat)
    requires Sorted(pts) && AllRecorded(segs) && MergedBy(pts, segs, ws, out, starts) && r < |out|
    ensures 0 <= starts[r] < starts[r + 1] <= |segs|
    ensures IsRunEnd(pts, segs, ws, starts[r], starts[r + 1] - 1)
    ensures var first, last := segs[starts[r]], segs[starts[r + 1] - 1];
            && out[r].blockOff == first.blockOff && out[r].blockOn == last.blockOn
            && out[r].departure == first.departure && out[r].arrival == last.arrival
            && out[r].takeoff == first.takeoff && out[r].landing == last.landing
            && out[r].hintDeparture == first.hintDeparture && out[r].hintArrival == last.hintArrival
            && out[r].landingCount == Merge.Landings(segs[starts[r]..starts[r + 1]])
            && (starts[r + 1] > starts[r] + 1 ==> out[r].airborne == Some(AirborneTime(segs[starts[r]..starts[r + 1]])))
    ensures starts[r + 1] == starts[r] + 1 ==> out[r] == segs[starts[r]]
    ensures starts[r + 1] > starts[r] + 1 ==>
              out[r] == MergeRun(segs[starts[r]..starts[r + 1]], pts) && !out[r].groundOnly
  {
  }

  // ---------------------------------------------------------------- Conservation

  lemma {:induction false} LandingsOfConcat(a: seq<FlightSegment>, b: seq<FlightSegment>)
    ensures Merge.Landings(a + b) == Merge.Landings(a) + Merge.Landings(b)
  {
    if b == [] {
      assert a + b == a;
    } else {
      assert (a + b)[..|a + b| - 1] == a + b[..|b| - 1];
      LandingsOfConcat(a, b[..|b| - 1]);
    }
  }

  lemma LandingsSplit(segs: seq<FlightSegment>, i: nat, j: nat)
    requires i <= j <= |segs|
    ensures Merge.Landings(segs[..j]) == Merge.Landings(segs[..i]) + Merge.Landings(segs[i..j])
  {
    LandingsOfConcat(segs[..i], segs[i..j]);
    assert segs[..j] == segs[..i] + segs[i..j];
  }

  lemma {:induction false} LandingsOfPrefix(pts: seq<TrackPoint>, segs: seq<FlightSegment>, ws: seq<LoggedWindow>,
                                            out: seq<FlightSegment>, starts: seq<nat>, r: nat)
    requires Sorted(pts) && AllRecorded(segs) && MergedBy(pts, segs, ws, out, starts) && r <= |out|
    ensures starts[r] <= |segs| && Merge.Landings(out[..r]) == Merge.Landings(segs[..starts[r]])
  {
    if r > 0 {
      LandingsOfPrefix(pts, segs, ws, out, starts, r - 1);
      DeliveredEnds(pts, segs, ws, out, starts, r - 1);
      hide MergedBy, AllRecorded, IsRunEnd, MergeRun;
      assert out[..r][..r - 1] == out[..r - 1];
      LandingsSplit(segs, starts[r - 1], starts[r]);
    } else {
      assert out[..0] == [] && segs[..0] == [];
    }
  }

  /** No landing is lost or invented. */
  lemma LandingsConserved(pts: seq<TrackPoint>, segs: seq<FlightSegment>, ws: seq<LoggedWindow>,
                          out: seq<FlightSegment>)
    requires Sorted(pts) && AllRecorded(segs) && IsMerge(pts, segs, ws, out)
    ensures Merge.Landings(out) == Merge.Landings(segs)
  {
    var starts: seq<nat> :| MergedBy(pts, segs, ws, out, starts) && starts[|starts| - 1] == |segs|;
    LandingsOfPrefix(pts, segs, ws, out, starts, |out|);
    assert out[..|out|] == out && segs[..|segs|] == segs;
  }

  /** The runs are consecutive, cover every segment once, and a run of several
      holds no ground-only segment. */
  lemma RunsPartition(pts: seq<TrackPoint>, segs: seq<FlightSegment>, ws: seq<LoggedWindow>, out: seq<FlightSegment>,
                      starts: seq<nat>, r: nat)
    requires Sorted(pts) && AllRecorded(segs) && MergedBy(pts, segs, ws, out, starts) && r < |out|
    ensures starts[0] == 0 && starts[r] < starts[r + 1] <= |segs|
    ensures starts[r] + 1 < starts[r + 1] ==>
              forall k :: starts[r] <= k < starts[r + 1] ==>
                !segs[k].groundOnly && (k + 1 < starts[r + 1] ==> Links(pts, segs, k))
  {
    DeliveredEnds(pts, segs, ws, out, starts, r);
    var i, best := starts[r], starts[r + 1] - 1;
    if i < best {
      var w :| w in ws && Records(pts, segs, w, i, best);
      forall k | i <= k <= best
        ensures !segs[k].groundOnly && (k < best ==> Links(pts, segs, k))
      {
        if k > i { assert Continues(pts, segs, w, k - 1); }
        if k < best { assert Continues(pts, segs, w, k); }
      }
    }
  }

  // ---------------------------------------------------------------- Clocks

  /** Flights in sequence: airborne time never exceeds the span that holds them. */
  lemma {:induction false} AirborneWithinSpan(run: seq<FlightSegment>)
    requires run != [] && InSequence(run) && forall s :: s in run ==> !s.groundOnly
    ensures run[0] in run && run[|run| - 1] in run
    ensures 0 <= AirborneTime(run) <= run[|run| - 1].landing.value - run[0].takeoff.value
  {
    var n := |run| - 1;
    assert WellTimed(run[0]) && WellTimed(run[n]);
    if n == 0 {
      assert run[..0] == [];
    } else {
      var init := run[..n];
      assert init[n - 1] == run[n - 1] && init[0] == run[0];
      AirborneWithinSpan(init);
      assert WellTimed(run[n - 1]) && run[n - 1].blockOn <= run[n].blockOff;
    }
  }

  /** A joined segment flew no longer than take-off to landing, and was off
      blocks at least that long. */
  lemma MergedClock(pts: seq<TrackPoint>, segs: seq<FlightSegment>, ws: seq<LoggedWindow>, out: seq<FlightSegment>,
                    starts: seq<nat>, r: nat)
    requires Sorted(pts) && AllRecorded(segs) && MergedBy(pts, segs, ws, out, starts) && r < |out|
    requires InSequence(segs) && starts[r] + 1 < starts[r + 1]
    ensures out[r].airborne.Some? && out[r].takeoff.Some? && out[r].landing.Some?
    ensures 0 <= out[r].airborne.value <= out[r].landing.value - out[r].takeoff.value <= out[r].BlockTime()
  {
    DeliveredEnds(pts, segs, ws, out, starts, r);
    RunsPartition(pts, segs, ws, out, starts, r);
    var i, j := starts[r], starts[r + 1];
    assert forall k :: i <= k < j ==> !segs[k].groundOnly;
    hide MergedBy, Links, IsRunEnd, AllRecorded, MergeRun;
    RunClock(segs, i, j);
  }

  lemma RunClock(segs: seq<FlightSegment>, i: nat, j: nat)
    requires InSequence(segs) && i < j <= |segs| && forall k :: i <= k < j ==> !segs[k].groundOnly
    ensures segs[i].takeoff.Some? && segs[j - 1].landing.Some?
    ensures 0 <= AirborneTime(segs[i..j]) <= segs[j - 1].landing.value - segs[i].takeoff.value
    ensures segs[i].blockOff <= segs[i].takeoff.value && segs[j - 1].landing.value <= segs[j - 1].blockOn
  {
    hide InSequence;
    RunInSequence(segs, i, j);
    AirborneWithinSpan(segs[i..j]);
    SequenceTimed(segs);
    assert WellTimed(segs[i]) && WellTimed(segs[j - 1]);
  }

  lemma SequenceTimed(segs: seq<FlightSegment>)
    requires InSequence(segs)
    ensures forall k :: 0 <= k < |segs| ==> WellTimed(segs[k])
  {
  }

  lemma RunInSequence(segs: seq<FlightSegment>, i: nat, j: nat)
    requires InSequence(segs) && i < j <= |segs| && forall k :: i <= k < j ==> !segs[k].groundOnly
    ensures InSequence(segs[i..j]) && forall s :: s in segs[i..j] ==> !s.groundOnly
  {
    hide WellTimed;
    forall g, h | 0 <= g < h < j - i
      ensures segs[i..j][g].blockOn <= segs[i..j][h].blockOff
    {
      assert segs[i + g].blockOn <= segs[i + h].blockOff;
    }
  }

  // ---------------------------------------------------------------- Recording gaps

  lemma GapNotRecordedThroughout(pts: seq<TrackPoint>, start: int, end: int, k: nat)
    requires Sorted(pts) && k + 1 < |pts| && start <= pts[k].time && pts[k + 1].time <= end
    requires RecordedThroughout(pts, start, end)
    ensures !RecordingGap(pts, k)
  {
  }

  /** The group of run i..j in which, or after which, the recording goes on from k. */
  lemma GroupAround(gs: seq<Split.Slice>, i: nat, j: nat, k: nat) returns (q: nat)
    requires i <= j < |gs| && gs[i].lo <= k && k + 1 < gs[j].hi
    requires forall g, h :: 0 <= g < h < |gs| ==> gs[g].lo <= gs[h].lo
    ensures i <= q <= j && gs[q].lo <= k && (k + 1 < gs[q].hi || (q < j && k + 1 <= gs[q + 1].lo))
    decreases j - i
  {
    if i == j || k + 1 < gs[i].hi || k < gs[i + 1].lo {
      q := i;
    } else {
      q := GroupAround(gs, i + 1, j, k);
    }
  }

  ghost predicate NoGap(track: seq<TrackPoint>) {
    forall k :: 0 <= k < |track| - 1 ==> !RecordingGap(track, k)
  }

  /** The segments' tracks are the groups, in order. */
  lemma DetectedGroups(pts: seq<TrackPoint>, gs: seq<Split.Slice>, segs: seq<FlightSegment>,
                       resolve: (real, real) -> Place, hintDep: Place, hintArr: Place)
    requires Sorted(pts) && DetectedFrom(pts, gs, segs, resolve, hintDep, hintArr)
    ensures |gs| == |segs| && Split.IsSplit(pts, gs)
    ensures forall g :: 0 <= g < |gs| ==> gs[g].lo < gs[g].hi <= |pts| && segs[g].trackpoints == pts[gs[g].lo..gs[g].hi]
    ensures forall g :: 0 <= g < |gs| ==>
              segs[g].blockOff == pts[gs[g].lo].time && segs[g].blockOn == pts[gs[g].hi - 1].time
    ensures forall g, h :: 0 <= g < h < |gs| ==> gs[g].lo <= gs[h].lo && gs[g].hi < gs[h].hi
  {
    hide Split.IsSplit, SegmentsOf, Sorted;
    DetectedInSequence(pts, gs, segs, resolve, hintDep, hintArr);
    SplitFacts.GroupsInOrder(pts, gs);
    forall g | 0 <= g < |gs|
      ensures segs[g].blockOff == pts[gs[g].lo].time && segs[g].blockOn == pts[gs[g].hi - 1].time
    {
      assert WellTimed(segs[g]);
    }
  }

  /** Between two groups that a run joins, the recording went on. */
  lemma JoinedGroupsUnbroken(pts: seq<TrackPoint>, gs: seq<Split.Slice>, segs: seq<FlightSegment>, i: nat, j: nat,
                             k: nat, resolve: (real, real) -> Place, hintDep: Place, hintArr: Place)
    requires Sorted(pts) && DetectedFrom(pts, gs, segs, resolve, hintDep, hintArr)
    requires i <= j < |segs| && gs[i].lo <= k && k + 1 < gs[j].hi <= |pts|
    requires forall m :: i <= m < j ==> Links(pts, segs, m)
    ensures !RecordingGap(pts, k)
  {
    hide DetectedFrom, RecordedThroughout;
    DetectedGroups(pts, gs, segs, resolve, hintDep, hintArr);
    var q := GroupAround(gs, i, j, k);
    if k + 1 < gs[q].hi {
      SplitFacts.NoGapInGroup(pts, gs, q);
    } else {
      assert Links(pts, segs, q);
      assert segs[q].blockOn == pts[gs[q].hi - 1].time && segs[q + 1].blockOff == pts[gs[q + 1].lo].time;
      GapNotRecordedThroughout(pts, segs[q].blockOn, segs[q + 1].blockOff, k);
    }
  }

  /** Two points recorded within a run's time span have no gap between them,
      even if they share a time stamp with a neighbouring group. */
  lemma GapInSlice(pts: seq<TrackPoint>, gs: seq<Split.Slice>, segs: seq<FlightSegment>, i: nat, j: nat, k: nat,
                   resolve: (real, real) -> Place, hintDep: Place, hintArr: Place)
    requires Sorted(pts) && DetectedFrom(pts, gs, segs, resolve, hintDep, hintArr)
    requires i <= j < |segs| && k + 1 < |pts|
    requires gs[i].lo < |pts| && 0 < gs[j].hi <= |pts|
    requires pts[gs[i].lo].time <= pts[k].time && pts[k + 1].time <= pts[gs[j].hi - 1].time
    requires forall m :: i <= m < j ==> Links(pts, segs, m)
    ensures !RecordingGap(pts, k)
  {
    hide Split.IsSplit, SegmentsOf, Links;
    if RecordingGap(pts, k) {
      assert pts[k].time < pts[k + 1].time;
      assert gs[i].lo <= k && k + 1 <= gs[j].hi - 1;
      JoinedGroupsUnbroken(pts, gs, segs, i, j, k, resolve, hintDep, hintArr);
    }
  }

  /** No recording gap from instant `from` to instant `to`. */
  ghost predicate UnbrokenSpan(pts: seq<TrackPoint>, from: int, to: int) {
    forall k :: 0 <= k < |pts| - 1 && from <= pts[k].time && pts[k + 1].time <= to ==> !RecordingGap(pts, k)
  }

  lemma SpanUnbroken(pts: seq<TrackPoint>, gs: seq<Split.Slice>, segs: seq<FlightSegment>, i: nat, j: nat,
                     resolve: (real, real) -> Place, hintDep: Place, hintArr: Place)
    requires Sorted(pts) && DetectedFrom(pts, gs, segs, resolve, hintDep, hintArr)
    requires i <= j < |segs| && gs[i].lo < |pts| && 0 < gs[j].hi <= |pts|
    requires forall m :: i <= m < j ==> Links(pts, segs, m)
    ensures UnbrokenSpan(pts, pts[gs[i].lo].time, pts[gs[j].hi - 1].time)
  {
    hide Split.IsSplit, SegmentsOf, Links;
    forall k | 0 <= k < |pts| - 1 && pts[gs[i].lo].time <= pts[k].time && pts[k + 1].time <= pts[gs[j].hi - 1].time
      ensures !RecordingGap(pts, k)
    {
      GapInSlice(pts, gs, segs, i, j, k, resolve, hintDep, hintArr);
    }
  }

  /** The track of a joined run: all points recorded in its time span. */
  lemma JoinedTrack(pts: seq<TrackPoint>, run: seq<FlightSegment>, a: nat, b: nat)
    requires Sorted(pts) && a < b <= |pts|
    requires run != [] && run[0].trackpoints != [] && run[|run| - 1].trackpoints != []
    requires run[0].trackpoints[0].time == pts[a].time
    requires var last := run[|run| - 1].trackpoints; last[|last| - 1].time == pts[b - 1].time
    requires UnbrokenSpan(pts, pts[a].time, pts[b - 1].time)
    ensures var joined := MergeRun(run, pts).trackpoints; joined != [] && NoGap(joined)
  {
    var lo, hi := BisectLeft(pts, pts[a].time), BisectRight(pts, pts[b - 1].time);
    assert lo <= a < b <= hi;
    NoGapInSlice(pts, lo, hi);
  }

  lemma NoGapInSlice(pts: seq<TrackPoint>, lo: nat, hi: nat)
    requires lo <= hi <= |pts| && forall k :: lo <= k < hi - 1 ==> !RecordingGap(pts, k)
    ensures NoGap(pts[lo..hi])
  {
    forall k | 0 <= k < hi - lo - 1
      ensures !RecordingGap(pts[lo..hi], k)
    {
      assert !RecordingGap(pts, lo + k);
    }
  }

  lemma NoGapInRun(pts: seq<TrackPoint>, gs: seq<Split.Slice>, segs: seq<FlightSegment>, i: nat, j: nat,
                   run: seq<FlightSegment>, resolve: (real, real) -> Place, hintDep: Place, hintArr: Place)
    requires run != [] && run[0].trackpoints != [] && run[|run| - 1].trackpoints != []
    requires Sorted(pts) && i <= j < |segs| && run == segs[i..j + 1]
    requires DetectedFrom(pts, gs, segs, resolve, hintDep, hintArr)
    requires forall m :: i <= m < j ==> Links(pts, segs, m)
    ensures var track := Delivered(run, pts).trackpoints; track != [] && NoGap(track)
  {
    hide DetectedFrom, NoGap, Links, UnbrokenSpan, MergeRun, Split.IsSplit, Sorted, RecordingGap;
    DetectedGroups(pts, gs, segs, resolve, hintDep, hintArr);
    if i == j {
      SplitFacts.NoGapInGroup(pts, gs, i);
      NoGapInSlice(pts, gs[i].lo, gs[i].hi);
    } else {
      assert gs[i].hi < gs[j].hi;
      SpanUnbroken(pts, gs, segs, i, j, resolve, hintDep, hintArr);
      JoinedTrack(pts, run, gs[i].lo, gs[j].hi);
    }
  }

  /** No delivered segment, single or joined, contains a recording gap. */
  lemma NoGapDelivered(pts: seq<TrackPoint>, gs: seq<Split.Slice>, segs: seq<FlightSegment>, ws: seq<LoggedWindow>,
                       out: seq<FlightSegment>, r: nat,
                       resolve: (real, real) -> Place, hintDep: Place, hintArr: Place)
    requires Sorted(pts) && DetectedFrom(pts, gs, segs, resolve, hintDep, hintArr)
    requires AllRecorded(segs) && IsMerge(pts, segs, ws, out) && r < |out|
    ensures out[r].trackpoints != [] && NoGap(out[r].trackpoints)
  {
    hide DetectedFrom, NoGap, Delivered, Runs, Links;
    var starts: seq<nat> :| MergedBy(pts, segs, ws, out, starts) && starts[|starts| - 1] == |segs|;
    RunsPartition(pts, segs, ws, out, starts, r);
    var run := segs[starts[r]..starts[r + 1]];
    assert run[0] in segs && run[|run| - 1] in segs;
    NoGapInRun(pts, gs, segs, starts[r], starts[r + 1] - 1, run, resolve, hintDep, hintArr);
  }

  // ---------------------------------------------------------------- The delivered sequence

  /** A joined track is a slice that begins and ends with the run's own times. */
  lemma JoinedSlice(pts: seq<TrackPoint>, run: seq<FlightSegment>, a: nat, b: nat) returns (lo: nat, hi: nat)
    requires Sorted(pts) && a < b <= |pts|
    requires run != [] && run[0].trackpoints != [] && run[|run| - 1].trackpoints != []
    requires run[0].trackpoints[0].time == pts[a].time
    requires var last := run[|run| - 1].trackpoints; last[|last| - 1].time == pts[b - 1].time
    ensures lo <= a < b <= hi <= |pts| && MergeRun(run, pts).trackpoints == pts[lo..hi]
    ensures pts[lo].time == pts[a].time && pts[hi - 1].time == pts[b - 1].time && Sorted(pts[lo..hi])
  {
    lo, hi := BisectLeft(pts, pts[a].time), BisectRight(pts, pts[b - 1].time);
  }

  /** The track of run i..j: it holds the tracks of all its segments, and begins and
      ends with the first and the last. */
  lemma RunSlice(pts: seq<TrackPoint>, gs: seq<Split.Slice>, segs: seq<FlightSegment>, i: nat, j: nat,
                 run: seq<FlightSegment>,
                 resolve: (real, real) -> Place, hintDep: Place, hintArr: Place) returns (lo: nat, hi: nat)
    requires run != [] && run[0].trackpoints != [] && run[|run| - 1].trackpoints != []
    requires Sorted(pts) && i <= j < |segs| && run == segs[i..j + 1]
    requires DetectedFrom(pts, gs, segs, resolve, hintDep, hintArr)
    ensures |gs| == |segs| && lo <= gs[i].lo < gs[j].hi <= hi <= |pts|
    ensures Delivered(run, pts).trackpoints == pts[lo..hi] && Sorted(pts[lo..hi])
    ensures pts[lo].time == segs[i].blockOff && pts[hi - 1].time == segs[j].blockOn
  {
    hide DetectedFrom, MergeRun, Split.IsSplit;
    DetectedGroups(pts, gs, segs, resolve, hintDep, hintArr);
    lo, hi := gs[i].lo, gs[j].hi;
    if i < j {
      lo, hi := JoinedSlice(pts, run, lo, hi);
    }
  }

  /** The delivered segments follow one another, each from its first recorded point
      at block-off to its last at block-on. */
  lemma DeliveredInSequence(pts: seq<TrackPoint>, gs: seq<Split.Slice>, segs: seq<FlightSegment>, ws: seq<LoggedWindow>,
                            out: seq<FlightSegment>, resolve: (real, real) -> Place, hintDep: Place, hintArr: Place)
    requires Sorted(pts) && DetectedFrom(pts, gs, segs, resolve, hintDep, hintArr)
    requires AllRecorded(segs) && IsMerge(pts, segs, ws, out)
    ensures InSequence(out)
  {
    hide DetectedFrom, WellTimed, Runs, Sorted, Delivered;
    var starts: seq<nat> :| MergedBy(pts, segs, ws, out, starts) && starts[|starts| - 1] == |segs|;
    DetectedInSequence(pts, gs, segs, resolve, hintDep, hintArr);
    forall r | 0 <= r < |out|
      ensures WellTimed(out[r])
    {
      DeliveredWellTimed(pts, gs, segs, ws, out, starts, r, resolve, hintDep, hintArr);
    }
    forall q, r | 0 <= q < r < |out|
      ensures out[q].blockOn <= out[r].blockOff
    {
      DeliveredApart(pts, segs, ws, out, starts, q, r);
    }
  }

  lemma DeliveredApart(pts: seq<TrackPoint>, segs: seq<FlightSegment>, ws: seq<LoggedWindow>, out: seq<FlightSegment>,
                       starts: seq<nat>, q: nat, r: nat)
    requires Sorted(pts) && AllRecorded(segs) && MergedBy(pts, segs, ws, out, starts) && q < r < |out|
             && InSequence(segs)
    ensures out[q].blockOn <= out[r].blockOff
  {
    DeliveredEnds(pts, segs, ws, out, starts, q);
    DeliveredEnds(pts, segs, ws, out, starts, r);
    RunInRange(pts, segs, ws, starts, q + 1, r);
    hide MergedBy;
    assert segs[starts[q + 1] - 1].blockOn <= segs[starts[r]].blockOff;
  }

  lemma DeliveredWellTimed(pts: seq<TrackPoint>, gs: seq<Split.Slice>, segs: seq<FlightSegment>, ws: seq<LoggedWindow>,
                           out: seq<FlightSegment>, starts: seq<nat>, r: nat,
                           resolve: (real, real) -> Place, hintDep: Place, hintArr: Place)
    requires Sorted(pts) && DetectedFrom(pts, gs, segs, resolve, hintDep, hintArr)
    requires AllRecorded(segs) && MergedBy(pts, segs, ws, out, starts) && r < |out| && InSequence(segs)
    ensures WellTimed(out[r])
  {
    hide DetectedFrom, Runs, InSequence, Sorted, MergeRun, Links, Delivered, IsRunEnd;
    DeliveredEnds(pts, segs, ws, out, starts, r);
    RunsPartition(pts, segs, ws, out, starts, r);
    var i, j := starts[r], starts[r + 1] - 1;
    var run := segs[i..j + 1];
    assert out[r] == Delivered(run, pts);
    hide MergedBy;
    SequenceTimed(segs);
    assert WellTimed(segs[i]) && WellTimed(segs[j]);
    if i < j {
      var lo, hi := RunSlice(pts, gs, segs, i, j, run, resolve, hintDep, hintArr);
      RunClock(segs, i, j + 1);
    }
  }

  /** Every segment's track lies in one piece inside that of the segment it is joined into. */
  lemma DeliveredContains(pts: seq<TrackPoint>, gs: seq<Split.Slice>, segs: seq<FlightSegment>, ws: seq<LoggedWindow>,
                          out: seq<FlightSegment>, starts: seq<nat>, r: nat, k: nat,
                          resolve: (real, real) -> Place, hintDep: Place, hintArr: Place) returns (d: nat)
    requires Sorted(pts) && DetectedFrom(pts, gs, segs, resolve, hintDep, hintArr)
    requires AllRecorded(segs) && MergedBy(pts, segs, ws, out, starts) && r < |out|
    requires starts[r] <= k < starts[r + 1] <= |segs|
    ensures d + |segs[k].trackpoints| <= |out[r].trackpoints|
    ensures out[r].trackpoints[d..d + |segs[k].trackpoints|] == segs[k].trackpoints
  {
    hide DetectedFrom, Delivered, Split.IsSplit, Sorted, Runs, AllRecorded;
    var i, j := starts[r], starts[r + 1] - 1;
    var run := segs[i..j + 1];
    DeliveredRun(pts, segs, ws, out, starts, r);
    hide MergedBy;
    var lo, hi := RunSlice(pts, gs, segs, i, j, run, resolve, hintDep, hintArr);
    GroupInside(pts, gs, segs, i, k, j, resolve, hintDep, hintArr);
    d := gs[k].lo - lo;
    SliceOfSlice(pts, lo, hi, gs[k].lo, gs[k].hi);
  }

  lemma GroupInside(pts: seq<TrackPoint>, gs: seq<Split.Slice>, segs: seq<FlightSegment>, i: nat, k: nat, j: nat,
                    resolve: (real, real) -> Place, hintDep: Place, hintArr: Place)
    requires Sorted(pts) && DetectedFrom(pts, gs, segs, resolve, hintDep, hintArr) && i <= k <= j < |segs|
    ensures |gs| == |segs| && gs[i].lo <= gs[k].lo < gs[k].hi <= gs[j].hi && gs[k].hi <= |pts|
    ensures segs[k].trackpoints == pts[gs[k].lo..gs[k].hi]
  {
    hide DetectedFrom, Split.IsSplit, Sorted;
    DetectedGroups(pts, gs, segs, resolve, hintDep, hintArr);
  }

  lemma DeliveredRun(pts: seq<TrackPoint>, segs: seq<FlightSegment>, ws: seq<LoggedWindow>, out: seq<FlightSegment>,
                     starts: seq<nat>, r: nat)
    requires Sorted(pts) && AllRecorded(segs) && MergedBy(pts, segs, ws, out, starts) && r < |out|
    requires starts[r] < starts[r + 1] <= |segs|
    ensures var run := segs[starts[r]..starts[r + 1]];
            && run != [] && run[0].trackpoints != [] && run[|run| - 1].trackpoints != []
            && out[r] == Delivered(run, pts)
  {
    hide Delivered, Runs, Sorted;
    var run := segs[starts[r]..starts[r + 1]];
    assert run[0] in segs && run[|run| - 1] in segs;
  }

  lemma SliceOfSlice(pts: seq<TrackPoint>, lo: nat, hi: nat, a: nat, b: nat)
    requires lo <= a <= b <= hi <= |pts|
    ensures pts[lo..hi][a - lo..b - lo] == pts[a..b]
  {
    var piece := pts[lo..hi][a - lo..b - lo];
    assert |piece| == b - a;
    forall k | 0 <= k < b - a
      ensures piece[k] == pts[a..b][k]
    {
      assert pts[lo..hi][a - lo + k] == pts[a + k];
    }
  }

  // ---------------------------------------------------------------- Idempotence

  /** What links two delivered segments links the segments at their border. */
  lemma LinkAtBorder(pts: seq<TrackPoint>, segs: seq<FlightSegment>, ws: seq<LoggedWindow>, out: seq<FlightSegment>,
                     starts: seq<nat>, q: nat)
    requires Sorted(pts) && AllRecorded(segs) && MergedBy(pts, segs, ws, out, starts) && q + 1 < |out|
    requires Links(pts, out, q)
    ensures 0 < starts[q + 1] < |segs| && Links(pts, segs, starts[q + 1] - 1)
  {
    DeliveredEnds(pts, segs, ws, out, starts, q);
    DeliveredEnds(pts, segs, ws, out, starts, q + 1);
    if starts[q + 2] > starts[q + 1] + 1 {
      RunsPartition(pts, segs, ws, out, starts, q + 1);
    }
  }

  /** Segments m and m + 1 inside runs r..k of a joinable stretch are linked. */
  lemma LinkInside(pts: seq<TrackPoint>, segs: seq<FlightSegment>, ws: seq<LoggedWindow>, out: seq<FlightSegment>,
                   starts: seq<nat>, r: nat, k: nat, m: nat)
    requires Sorted(pts) && AllRecorded(segs) && MergedBy(pts, segs, ws, out, starts) && r <= k < |out|
    requires forall q :: r <= q < k ==> Links(pts, out, q)
    requires starts[r] <= m && m + 1 < starts[k + 1] <= |segs|
    ensures Links(pts, segs, m)
    decreases k - r
  {
    RunsPartition(pts, segs, ws, out, starts, r);
    if m + 1 > starts[r + 1] {
      LinkInside(pts, segs, ws, out, starts, r + 1, k, m);
    } else if m + 1 == starts[r + 1] {
      LinkAtBorder(pts, segs, ws, out, starts, r);
    }
  }

  ghost predicate BlocksOrdered(segs: seq<FlightSegment>) {
    forall g, h :: 0 <= g < h < |segs| ==> segs[g].blockOn <= segs[h].blockOn
  }

  /** A logged flight that records delivered segments r..k as one would have
      recorded all the segments they are made of. */
  lemma RecordsLift(pts: seq<TrackPoint>, segs: seq<FlightSegment>, ws: seq<LoggedWindow>, out: seq<FlightSegment>,
                    starts: seq<nat>, w: LoggedWindow, r: nat, k: nat)
    requires Sorted(pts) && AllRecorded(segs) && MergedBy(pts, segs, ws, out, starts) && BlocksOrdered(segs)
    requires Records(pts, out, w, r, k)
    ensures starts[k + 1] > 0 && Records(pts, segs, w, starts[r], starts[k + 1] - 1)
  {
    hide IsRunEnd, RecordedThroughout;
    DeliveredEnds(pts, segs, ws, out, starts, r);
    DeliveredEnds(pts, segs, ws, out, starts, k);
    RunInRange(pts, segs, ws, starts, r, k);
    RunsPartition(pts, segs, ws, out, starts, r);
    var i, j := starts[r], starts[k + 1] - 1;
    assert Continues(pts, out, w, k - 1);
    assert forall q :: r <= q < k ==> Continues(pts, out, w, q) && Links(pts, out, q);
    forall m | i <= m < j
      ensures Continues(pts, segs, w, m)
    {
      LinkInside(pts, segs, ws, out, starts, r, k, m);
      assert segs[m + 1].blockOn <= segs[j].blockOn;
    }
    assert Starts(w, segs[i]);
  }

  /** Nothing is left to join. */
  lemma NothingLeft(pts: seq<TrackPoint>, segs: seq<FlightSegment>, ws: seq<LoggedWindow>, out: seq<FlightSegment>)
    requires Sorted(pts) && AllRecorded(segs) && IsMerge(pts, segs, ws, out) && BlocksOrdered(segs)
    ensures forall w, r: nat, k: nat :: w in ws ==> !Records(pts, out, w, r, k)
  {
    var starts: seq<nat> :| MergedBy(pts, segs, ws, out, starts) && starts[|starts| - 1] == |segs|;
    hide Links, Continues, Starts, Delivered, AllRecorded, BlocksOrdered, Sorted, SamePlace, IsMerge;
    forall w, r: nat, k: nat | w in ws && Records(pts, out, w, r, k)
      ensures false
    {
      RecordsLift(pts, segs, ws, out, starts, w, r, k);
      DeliveredEnds(pts, segs, ws, out, starts, r);
      RunInRange(pts, segs, ws, starts, r + 1, k + 1);
    }
  }

  lemma OnlySingleRuns(pts: seq<TrackPoint>, segs: seq<FlightSegment>, ws: seq<LoggedWindow>, out: seq<FlightSegment>)
    requires Sorted(pts) && AllRecorded(segs) && IsMerge(pts, segs, ws, out)
    requires forall w, r: nat, k: nat :: w in ws ==> !Records(pts, segs, w, r, k)
    ensures out == segs
  {
    var starts: seq<nat> :| MergedBy(pts, segs, ws, out, starts) && starts[|starts| - 1] == |segs|;
    forall r | 0 <= r < |starts|
      ensures starts[r] == r
    {
      StartsAt(pts, segs, ws, starts, r);
    }
    forall r | 0 <= r < |out|
      ensures out[r] == segs[r]
    {
      DeliveredEnds(pts, segs, ws, out, starts, r);
    }
  }

  lemma {:induction false} StartsAt(pts: seq<TrackPoint>, segs: seq<FlightSegment>, ws: seq<LoggedWindow>,
                                    starts: seq<nat>, r: nat)
    requires Sorted(pts) && Runs(pts, segs, ws, starts) && r < |starts|
    requires forall w, i: nat, k: nat :: w in ws ==> !Records(pts, segs, w, i, k)
    ensures starts[r] == r
  {
    if r > 0 {
      StartsAt(pts, segs, ws, starts, r - 1);
      assert IsRunEnd(pts, segs, ws, starts[r - 1], starts[r] - 1);
    }
  }

  /** Joining again, with the same track and logbook, changes nothing: whatever
      the first pass delivers is what a second pass delivers from it. */
  lemma MergeIdempotent(pts: seq<TrackPoint>, segs: seq<FlightSegment>, ws: seq<LoggedWindow>,
                        out: seq<FlightSegment>, again: seq<FlightSegment>)
    requires Sorted(pts) && AllRecorded(segs) && IsMerge(pts, segs, ws, out) && BlocksOrdered(segs)
    requires AllRecorded(out) && IsMerge(pts, out, ws, again)
    ensures again == out
  {
    NothingLeft(pts, segs, ws, out);
    OnlySingleRuns(pts, out, ws, again);
  }

  /** The whole pipeline, on any track and any logbook: detect, join, join again. */
  lemma PipelineIdempotent(pts: seq<TrackPoint>, gs: seq<Split.Slice>, segs: seq<FlightSegment>, ws: seq<LoggedWindow>,
                           out: seq<FlightSegment>, resolve: (real, real) -> Place, hintDep: Place, hintArr: Place)
    requires Sorted(pts) && DetectedFrom(pts, gs, segs, resolve, hintDep, hintArr)
    requires AllRecorded(segs) && IsMerge(pts, segs, ws, out)
    ensures AllRecorded(out) && forall again :: IsMerge(pts, out, ws, again) ==> again == out
  {
    hide Split.IsSplit, SegmentsOf, IsMerge;
    forall r | 0 <= r < |out|
      ensures out[r].trackpoints != []
    {
      NoGapDelivered(pts, gs, segs, ws, out, r, resolve, hintDep, hintArr);
    }
    DetectedInSequence(pts, gs, segs, resolve, hintDep, hintArr);
    InSequenceOrdered(segs);
    forall again | IsMerge(pts, out, ws, again)
      ensures again == out
    {
      MergeIdempotent(pts, segs, ws, out, again);
    }
  }

  lemma InSequenceOrdered(segs: seq<FlightSegment>)
    requires InSequence(segs)
    ensures BlocksOrdered(segs)
  {
  }

  // ---------------------------------------------------------------- What one logged flight is

  /** Two place names agree unless both are known and differ. */
  ghost predicate Agree(a: Place, b: Place) {
    a.Some? && a.value != "" && b.Some? && b.value != "" ==> a.value == b.value
  }

  /** No two successive points recorded from `start` to `end` are 300 s or more apart. */
  ghost predicate RecordedOn(pts: seq<TrackPoint>, start: int, end: int) {
    forall k: nat :: k + 1 < |pts| && start <= pts[k].time && NextBy(pts, k, end) ==>
      !RecordingGap(pts, k)
  }

  ghost predicate NextBy(pts: seq<TrackPoint>, k: nat, end: int)
    requires k + 1 < |pts|
  {
    pts[k + 1].time <= end
  }

  /** Segment m + 1 goes on where segment m ended, without the recording stopping. */
  ghost predicate GoesOn(pts: seq<TrackPoint>, segs: seq<FlightSegment>, m: nat)
    requires m + 1 < |segs|
  {
    Agree(segs[m].arrival, segs[m + 1].departure) && RecordedOn(pts, segs[m].blockOn, segs[m + 1].blockOff)
  }

  /** A logbook flight records segments i..k as one exactly if none is on the ground only,
      they begin at most 15 minutes before it and end at most 15 minutes after it, go on
      from each other, and lead from its departure to its arrival. */
  lemma RecordsSpelledOut(pts: seq<TrackPoint>, segs: seq<FlightSegment>, w: LoggedWindow, i: nat, k: nat)
    requires Sorted(pts)
    ensures Records(pts, segs, w, i, k) <==>
              && i < k < |segs|
              && (forall m :: i <= m <= k ==> !segs[m].groundOnly)
              && w.start - 900 * SECOND <= segs[i].blockOff
              && (forall m :: i < m <= k ==> segs[m].blockOn <= w.end + 900 * SECOND)
              && Agree(segs[i].departure, w.departure) && Agree(segs[k].arrival, w.arrival)
              && (forall m: nat :: i <= m < k ==> GoesOn(pts, segs, m))
  {
    forall m: nat | m + 1 < |segs|
      ensures Links(pts, segs, m) <==> !segs[m + 1].groundOnly && GoesOn(pts, segs, m)
    {
      RecordedIff(pts, segs[m].blockOn, segs[m + 1].blockOff);
    }
    hide Links, GoesOn;
    if Records(pts, segs, w, i, k) {
      forall m | i < m <= k
        ensures !segs[m].groundOnly && segs[m].blockOn <= w.end + 900 * SECOND
      {
        assert Continues(pts, segs, w, m - 1);
      }
      forall m: nat | i <= m < k
        ensures GoesOn(pts, segs, m)
      {
        assert Continues(pts, segs, w, m);
      }
    }
  }

  lemma RecordedIff(pts: seq<TrackPoint>, start: int, end: int)
    requires Sorted(pts)
    ensures RecordedThroughout(pts, start, end) <==> RecordedOn(pts, start, end)
  {
    forall k: nat | k + 1 < |pts|
      ensures BisectLeft(pts, start) <= k < BisectRight(pts, end) - 1 <==> start <= pts[k].time && NextBy(pts, k, end)
    {
    }
  }

  /** Landings and airborne times of a run are those of its segments, added up. */
  lemma SumsOfOne(s: FlightSegment)
    ensures Merge.Landings([s]) == s.landingCount
    ensures s.takeoff.Some? && s.landing.Some? ==> AirborneTime([s]) == s.landing.value - s.takeoff.value
    ensures s.takeoff.None? || s.landing.None? ==> AirborneTime([s]) == 0
  {
    assert [s][..0] == [];
  }

  lemma {:induction false} AirborneOfConcat(a: seq<FlightSegment>, b: seq<FlightSegment>)
    ensures AirborneTime(a + b) == AirborneTime(a) + AirborneTime(b)
    decreases |b|
  {
    if b == [] {
      assert a + b == a;
    } else {
      assert (a + b)[..|a + b| - 1] == a + b[..|b| - 1];
      AirborneOfConcat(a, b[..|b| - 1]);
    }
  }
}
