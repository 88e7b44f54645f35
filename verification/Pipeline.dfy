/** From uploaded files to the segments of the review page: merge_and_sort, then
    detect_segments, then merge_segments_logged_as_one. */
module Pipeline {
  import opened StableSort
  import opened Track
  import opened Segments
  import Split
  import Merge
  import MergeFacts

  /** `empty`: the file's classification, a track that never moves. */
  datatype ParsedFile = ParsedFile(track: seq<TrackPoint>, empty: bool)

  function AllPoints(files: seq<ParsedFile>): seq<TrackPoint> {
    if files == [] then []
    else AllPoints(files[..|files| - 1]) + if files[|files| - 1].empty then [] else files[|files| - 1].track
  }

  function ByTime(): TrackPoint -> real {
    (p: TrackPoint) => p.time as real
  }

  function MergeAndSort(files: seq<ParsedFile>): seq<TrackPoint> {
    SortBy(AllPoints(files), ByTime())
  }

  /** The points of some files and then of others; a file that is not empty gives all
      its points, in order, an empty one none. */
  lemma {:induction false} PointsOfFiles(a: seq<ParsedFile>, b: seq<ParsedFile>, f: ParsedFile)
    ensures AllPoints(a + b) == AllPoints(a) + AllPoints(b)
    ensures !f.empty ==> AllPoints([f]) == f.track
    ensures f.empty ==> AllPoints([f]) == []
    decreases |b|
  {
    assert [f][..0] == [];
    if b == [] {
      assert a + b == a;
    } else {
      assert (a + b)[..|a + b| - 1] == a + b[..|b| - 1];
      PointsOfFiles(a, b[..|b| - 1], f);
    }
  }

  lemma {:induction false} PointsListed(files: seq<ParsedFile>, p: TrackPoint)
    ensures p in AllPoints(files) <==> exists f :: f in files && !f.empty && p in f.track
  {
    if files != [] {
      var init, last := files[..|files| - 1], files[|files| - 1];
      assert files == init + [last];
      PointsListed(init, p);
    }
  }

  /** The merged track is in time order and holds every point of every moving file. */
  lemma MergedSorted(files: seq<ParsedFile>)
    ensures Sorted(MergeAndSort(files))
    ensures multiset(MergeAndSort(files)) == multiset(AllPoints(files))
    ensures forall p :: p in MergeAndSort(files) <==> exists f :: f in files && !f.empty && p in f.track
  {
    forall p
      ensures p in MergeAndSort(files) <==> exists f :: f in files && !f.empty && p in f.track
    {
      PointsListed(files, p);
      SortPermutes(AllPoints(files), ByTime());
    }
    var pts := MergeAndSort(files);
    SortAscending(AllPoints(files), ByTime());
    SortPermutes(AllPoints(files), ByTime());
    forall i, j | 0 <= i <= j < |pts|
      ensures pts[i].time <= pts[j].time
    {
      assert ByTime()(pts[i]) <= ByTime()(pts[j]);
    }
  }

  lemma DetectedRecorded(pts: seq<TrackPoint>, gs: seq<Split.Slice>, segs: seq<FlightSegment>,
                         resolve: (real, real) -> Place, hintDep: Place, hintArr: Place)
    requires Sorted(pts) && DetectedFrom(pts, gs, segs, resolve, hintDep, hintArr)
    ensures Merge.AllRecorded(segs) && InSequence(segs)
  {
    hide DetectedFrom;
    DetectedInSequence(pts, gs, segs, resolve, hintDep, hintArr);
    forall s | s in segs
      ensures s.trackpoints != []
    {
      var k :| 0 <= k < |segs| && segs[k] == s;
      assert WellTimed(segs[k]);
    }
  }

  /** The segments a review page shows for a track: detected, then joined. */
  ghost predicate Reviewed(pts: seq<TrackPoint>, segs: seq<FlightSegment>, out: seq<FlightSegment>,
                           ws: seq<LoggedWindow>, resolve: (real, real) -> Place, hintDep: Place, hintArr: Place)
  {
    && Sorted(pts) && Merge.AllRecorded(segs) && InSequence(segs)
    && (exists gs :: DetectedFrom(pts, gs, segs, resolve, hintDep, hintArr))
    && Merge.IsMerge(pts, segs, ws, out)
  }

  /** Whatever the files and the logbook say: the segments come from the merged track,
      they follow one another in time, none contains a recording gap, joining keeps the
      number of landings detected, and joining once more would change nothing. */
  method ReviewSegments(files: seq<ParsedFile>, ws: seq<LoggedWindow>,
                        resolve: (real, real) -> Place, hintDep: Place, hintArr: Place)
    returns (out: seq<FlightSegment>)
    ensures exists segs ::
              && Reviewed(MergeAndSort(files), segs, out, ws, resolve, hintDep, hintArr)
              && Merge.Landings(out) == Merge.Landings(segs)
    ensures InSequence(out)
    ensures forall s :: s in out ==> s.trackpoints != [] && MergeFacts.NoGap(s.trackpoints)
    ensures Sorted(MergeAndSort(files)) && Merge.AllRecorded(out)
    ensures forall again :: Merge.IsMerge(MergeAndSort(files), out, ws, again) ==> again == out
  {
    hide Sorted, DetectedFrom, Merge.IsMerge, MergeFacts.NoGap;
    var pts := MergeAndSort(files);
    MergedSorted(files);
    var segs := DetectSegments(pts, resolve, hintDep, hintArr);
    ghost var gs :| DetectedFrom(pts, gs, segs, resolve, hintDep, hintArr);
    DetectedRecorded(pts, gs, segs, resolve, hintDep, hintArr);
    out := Merge.MergeLoggedAsOne(segs, pts, ws);
    forall s | s in out
      ensures s.trackpoints != [] && MergeFacts.NoGap(s.trackpoints)
    {
      var r :| 0 <= r < |out| && out[r] == s;
      MergeFacts.NoGapDelivered(pts, gs, segs, ws, out, r, resolve, hintDep, hintArr);
    }
    MergeFacts.DeliveredInSequence(pts, gs, segs, ws, out, resolve, hintDep, hintArr);
    MergeFacts.LandingsConserved(pts, segs, ws, out);
    MergeFacts.PipelineIdempotent(pts, gs, segs, ws, out, resolve, hintDep, hintArr);
    assert Reviewed(pts, segs, out, ws, resolve, hintDep, hintArr);
  }
}
