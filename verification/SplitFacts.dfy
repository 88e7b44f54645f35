/** What a caller may rely on about the groups that Split returns. Every lemma
    holds of every IsSplit result, hence of what the loop computes. */
module SplitFacts {
  import opened Track
  import opened Split
  import opened Sequences

  ghost predicate InGroup(g: Slice, k: nat) {
    g.lo <= k < g.hi
  }

  ghost predicate SuccessiveFast(pts: seq<TrackPoint>, f: nat, h: nat) {
    f < h < |pts| && Fast(pts[f]) && Fast(pts[h]) && SlowBetween(pts, f, h)
  }

  lemma CutWithin(pts: seq<TrackPoint>, c: Cut)
    requires IsCut(pts, c)
    ensures c.end + 1 < |pts| && c.end <= c.start < |pts|
    ensures c.start == c.end ==> Parked(pts[c.end])
    ensures forall k :: c.end < k < c.start ==> !Fast(pts[k])
  {
  }

  lemma CutsWithin(pts: seq<TrackPoint>, cuts: seq<Cut>)
    requires Justified(pts, cuts, |pts|)
    ensures forall c :: c in cuts ==> c.end + 1 < |pts| && c.end <= c.start < |pts|
    ensures forall c :: c in cuts && c.start == c.end ==> Parked(pts[c.end])
  {
    forall c | c in cuts
      ensures c.end + 1 < |pts| && c.end <= c.start < |pts|
      ensures c.start == c.end ==> Parked(pts[c.end])
    {
      assert IsCut(pts, c);
      CutWithin(pts, c);
    }
  }

  lemma PairInOrder(pts: seq<TrackPoint>, cuts: seq<Cut>, g: nat, h: nat)
    requires |pts| > 0 && CutsBefore(pts, cuts, |pts|) && g < h <= |cuts|
    ensures GroupLo(cuts, g) <= GroupLo(cuts, h)
    ensures GroupHi(|pts|, cuts, g) < GroupHi(|pts|, cuts, h)
    ensures GroupHi(|pts|, cuts, g) <= GroupLo(cuts, h) + 1
    ensures g + 1 < h ==> GroupHi(|pts|, cuts, g) <= GroupLo(cuts, h)
    ensures GroupHi(|pts|, cuts, g) == GroupLo(cuts, h) + 1 ==> Parked(pts[GroupLo(cuts, h)])
  {
    hide IsCut, GapsCut, StretchesCut;
    CutsWithin(pts, cuts);
    assert cuts[g] in cuts && cuts[h - 1] in cuts;
    if g > 0 {
      assert cuts[g - 1] in cuts && cuts[g - 1].start <= cuts[h - 1].end;
    }
  }

  /** Groups are non-empty slices in order, from the first point to the last.
      Only neighbours can share a point: one, and the aircraft was parked there. */
  lemma GroupsInOrder(pts: seq<TrackPoint>, gs: seq<Slice>)
    requires IsSplit(pts, gs)
    ensures |pts| > 0 ==> |gs| > 0 && gs[0].lo == 0 && gs[|gs| - 1].hi == |pts|
    ensures forall g :: 0 <= g < |gs| ==> gs[g].lo < gs[g].hi <= |pts|
    ensures forall g, h :: 0 <= g < h < |gs| ==> gs[g].lo <= gs[h].lo && gs[g].hi < gs[h].hi && gs[g].hi <= gs[h].lo + 1
    ensures forall g, h :: 0 <= g && g + 1 < h < |gs| ==> gs[g].hi <= gs[h].lo
    ensures forall g :: 0 <= g < |gs| - 1 && gs[g].hi == gs[g + 1].lo + 1 ==> Parked(pts[gs[g + 1].lo])
  {
    if |pts| > 0 {
      hide CutsBefore;
      var cuts: seq<Cut> :| SplitBy(pts, gs, cuts);
      SlicesNonEmpty(pts, cuts);
      forall g | 0 <= g < |gs|
        ensures gs[g].lo < gs[g].hi <= |pts|
      {
        assert gs[g] in Groups(|pts|, cuts);
      }
      forall g, h | 0 <= g < h < |gs|
        ensures gs[g].lo <= gs[h].lo && gs[g].hi < gs[h].hi && gs[g].hi <= gs[h].lo + 1
        ensures g + 1 < h ==> gs[g].hi <= gs[h].lo
        ensures gs[g].hi == gs[h].lo + 1 ==> Parked(pts[gs[h].lo])
      {
        PairInOrder(pts, cuts, g, h);
      }
    }
  }

  /** Every cut lies before a group or after it. */
  lemma CutAtBorder(pts: seq<TrackPoint>, cuts: seq<Cut>, c: nat, g: nat)
    requires |pts| > 0 && CutsBefore(pts, cuts, |pts|) && c < |cuts| && g <= |cuts|
    ensures c < g ==> cuts[c].start <= GroupLo(cuts, g)
    ensures g <= c ==> GroupHi(|pts|, cuts, g) <= cuts[c].end + 1
  {
    hide IsCut, GapsCut, StretchesCut;
    CutsWithin(pts, cuts);
    if c < g {
      assert cuts[g - 1] in cuts;
    }
  }

  /** No group contains a recording gap. */
  lemma NoGapInGroup(pts: seq<TrackPoint>, gs: seq<Slice>, g: nat)
    requires IsSplit(pts, gs) && g < |gs|
    ensures gs[g].lo < gs[g].hi <= |pts| && Unbroken(pts, gs[g].lo, gs[g].hi - 1)
  {
    GroupsInOrder(pts, gs);
    var cuts: seq<Cut> :| SplitBy(pts, gs, cuts);
    forall k | gs[g].lo <= k < gs[g].hi - 1
      ensures !RecordingGap(pts, k)
    {
      GapOutside(pts, cuts, k, g);
    }
  }

  lemma GapOutside(pts: seq<TrackPoint>, cuts: seq<Cut>, k: nat, g: nat)
    requires CutsBefore(pts, cuts, |pts|) && k + 1 < |pts| && g <= |cuts|
    ensures RecordingGap(pts, k) ==> k + 1 <= GroupLo(cuts, g) || GroupHi(|pts|, cuts, g) <= k + 1
  {
    hide IsCut, StretchesCut;
    if RecordingGap(pts, k) {
      var c :| 0 <= c < |cuts| && cuts[c] == Cut(k, k + 1);
      CutAtBorder(pts, cuts, c, g);
    }
  }

  /** A cut between two points puts them in different groups... */
  lemma CutSeparates(pts: seq<TrackPoint>, cuts: seq<Cut>, c: nat, a: nat, b: nat, g: nat)
    requires |pts| > 0 && CutsBefore(pts, cuts, |pts|) && c < |cuts| && g <= |cuts|
    requires a < cuts[c].start && cuts[c].end < b
    ensures !(InGroup(Groups(|pts|, cuts)[g], a) && InGroup(Groups(|pts|, cuts)[g], b))
  {
    CutAtBorder(pts, cuts, c, g);
  }

  /** ...and a point that no cut skips over is in some group. */
  lemma PointInSomeGroup(pts: seq<TrackPoint>, cuts: seq<Cut>, k: nat, n: nat) returns (g: nat)
    requires k < |pts| && CutsBefore(pts, cuts, |pts|) && n <= |cuts|
    requires forall c :: c in cuts ==> !(c.end < k < c.start)
    requires k < GroupHi(|pts|, cuts, n)
    ensures g <= n && InGroup(Groups(|pts|, cuts)[g], k)
    decreases n
  {
    if n == 0 || GroupLo(cuts, n) <= k {
      g := n;
    } else {
      assert cuts[n - 1] in cuts;
      g := PointInSomeGroup(pts, cuts, k, n - 1);
    }
  }

  lemma FastNotSkipped(pts: seq<TrackPoint>, cuts: seq<Cut>, k: nat)
    requires k < |pts| && Fast(pts[k]) && CutsBefore(pts, cuts, |pts|)
    ensures forall c :: c in cuts ==> !(c.end < k < c.start)
  {
    forall c | c in cuts
      ensures !(c.end < k < c.start)
    {
      assert IsCut(pts, c);
      CutWithin(pts, c);
    }
  }

  /** Every fast point is delivered, in exactly one group. */
  lemma FastInExactlyOneGroup(pts: seq<TrackPoint>, gs: seq<Slice>, k: nat)
    requires IsSplit(pts, gs) && k < |pts| && Fast(pts[k])
    ensures exists g :: 0 <= g < |gs| && InGroup(gs[g], k)
    ensures forall g, h :: 0 <= g < h < |gs| ==> !(InGroup(gs[g], k) && InGroup(gs[h], k))
  {
    hide CutsBefore;
    var cuts: seq<Cut> :| SplitBy(pts, gs, cuts);
    FastNotSkipped(pts, cuts, k);
    var g := PointInSomeGroup(pts, cuts, k, |cuts|);
    assert InGroup(gs[g], k);
    GroupsInOrder(pts, gs);
    hide IsSplit, SplitBy, Groups;
    forall g, h | 0 <= g < h < |gs|
      ensures !(InGroup(gs[g], k) && InGroup(gs[h], k))
    {
      assert gs[g].hi <= gs[h].lo + 1 && (g + 1 < h ==> gs[g].hi <= gs[h].lo);
    }
  }

  /** A point in no group was left out on purpose: it lies inside a long stretch
      between two flights, and was either parked or part of a stretch in which
      the aircraft never parked. Taxiing is kept whenever there was a stop. */
  lemma DroppedPoint(pts: seq<TrackPoint>, gs: seq<Slice>, k: nat) returns (i: nat, j: nat)
    requires IsSplit(pts, gs) && k < |pts|
    requires forall g :: 0 <= g < |gs| ==> !InGroup(gs[g], k)
    ensures LongStretch(pts, i, j) && i < k < j && !Fast(pts[k])
    ensures Parked(pts[k]) || NeverParked(pts, i, j)
  {
    var cuts: seq<Cut> :| SplitBy(pts, gs, cuts);
    if forall c :: c in cuts ==> !(c.end < k < c.start) {
      var g := PointInSomeGroup(pts, cuts, k, |cuts|);
      assert false;
    }
    var c :| c in cuts && c.end < k < c.start;
    assert IsCut(pts, c);
    i, j :| LongStretch(pts, i, j) && StopCut(pts, i, j, c);
    StopCutInside(pts, i, j, c);
  }

  /** No cut falls between two successive fast points less than SEGMENT_GAP apart. */
  lemma NoCutInShortStretch(pts: seq<TrackPoint>, c: Cut, f: nat, h: nat)
    requires Sorted(pts) && SuccessiveFast(pts, f, h) && Elapsed(pts, f, h) < SEGMENT_GAP
    requires IsCut(pts, c)
    ensures c.start <= f || h <= c.end
  {
  }

  lemma CloseTogether(pts: seq<TrackPoint>, cuts: seq<Cut>, f: nat, h: nat) returns (g: nat)
    requires Sorted(pts) && CutsBefore(pts, cuts, |pts|) && SuccessiveFast(pts, f, h)
             && Elapsed(pts, f, h) < SEGMENT_GAP
    ensures g <= |cuts| && InGroup(Groups(|pts|, cuts)[g], f) && InGroup(Groups(|pts|, cuts)[g], h)
  {
    hide GapsCut, StretchesCut, Sorted;
    FastNotSkipped(pts, cuts, f);
    g := PointInSomeGroup(pts, cuts, f, |cuts|);
    if g < |cuts| {
      assert IsCut(pts, cuts[g]);
      NoCutInShortStretch(pts, cuts[g], f, h);
      CutWithin(pts, cuts[g]);
    }
  }

  /** The split is exact: two successive fast points share a group if and only if
      less than SEGMENT_GAP passes between them. */
  lemma SplitIsExact(pts: seq<TrackPoint>, gs: seq<Slice>, f: nat, h: nat)
    requires Sorted(pts) && IsSplit(pts, gs) && SuccessiveFast(pts, f, h)
    ensures (exists g :: 0 <= g < |gs| && InGroup(gs[g], f) && InGroup(gs[g], h)) <==> Elapsed(pts, f, h) < SEGMENT_GAP
  {
    var cuts: seq<Cut> :| SplitBy(pts, gs, cuts);
    hide CutsBefore, Sorted;
    if Elapsed(pts, f, h) < SEGMENT_GAP {
      var g := CloseTogether(pts, cuts, f, h);
      assert InGroup(gs[g], f) && InGroup(gs[g], h);
    } else {
      var c := CutInLongStretch(pts, cuts, f, h);
      forall g | 0 <= g < |gs|
        ensures !(InGroup(gs[g], f) && InGroup(gs[g], h))
      {
        CutSeparates(pts, cuts, c, f, h, g);
      }
    }
  }

  /** The same in knots and seconds. */
  lemma SplitInNumbers(pts: seq<TrackPoint>, gs: seq<Slice>, f: nat, h: nat)
    requires Sorted(pts) && IsSplit(pts, gs) && f < h < |pts| && pts[f].speed >= 30.0 && pts[h].speed >= 30.0
    requires forall k :: f < k < h ==> pts[k].speed < 30.0
    ensures (exists g :: 0 <= g < |gs| && gs[g].lo <= f && h < gs[g].hi)
            <==> pts[h].time - pts[f].time < 300 * 1_000_000
    ensures forall g :: 0 <= g < |gs| - 1 && gs[g].hi == gs[g + 1].lo + 1 ==>
              gs[g + 1].lo < |pts| && pts[gs[g + 1].lo].speed < 5.0
  {
    hide IsSplit;
    SplitIsExact(pts, gs, f, h);
    GroupsInOrder(pts, gs);
    if g :| 0 <= g < |gs| && gs[g].lo <= f && h < gs[g].hi {
      assert InGroup(gs[g], f) && InGroup(gs[g], h);
    }
  }

  /** A recording gap or the stop of the long stretch cuts f from h. */
  lemma CutInLongStretch(pts: seq<TrackPoint>, cuts: seq<Cut>, f: nat, h: nat) returns (c: nat)
    requires SuccessiveFast(pts, f, h) && Elapsed(pts, f, h) >= SEGMENT_GAP && CutsBefore(pts, cuts, |pts|)
    ensures c < |cuts| && f <= cuts[c].end < h && f < cuts[c].start <= h
    ensures f < cuts[c].end || cuts[c].end < cuts[c].start
  {
    if Unbroken(pts, f, h) {
      assert LongStretch(pts, f, h) && StretchCut(pts, f, h, cuts);
      var d :| d in cuts && StopCut(pts, f, h, d);
      StopCutInside(pts, f, h, d);
      c :| 0 <= c < |cuts| && cuts[c] == d;
    } else {
      var k :| f <= k < h && RecordingGap(pts, k);
      c :| 0 <= c < |cuts| && cuts[c] == Cut(k, k + 1);
    }
  }

  /** A cut listed in one split is listed in any other. */
  lemma CutListed(pts: seq<TrackPoint>, cuts: seq<Cut>, c: Cut)
    requires CutsBefore(pts, cuts, |pts|) && IsCut(pts, c)
    ensures c in cuts
  {
    if !GapCut(pts, c) {
      var i: nat, j: nat :| LongStretch(pts, i, j) && StopCut(pts, i, j, c);
      assert StretchCut(pts, i, j, cuts);
      var d :| d in cuts && StopCut(pts, i, j, d);
      StopCutUnique(pts, i, j, c, d);
    }
  }

  /** Where the aircraft parked in a long slow stretch, the cut is at a stop that no other
      stop of the stretch outlasts, nor one as long that is earlier. */
  lemma CutAtLongestStop(pts: seq<TrackPoint>, i: nat, j: nat, c: Cut, a: nat, b: nat)
    requires LongStretch(pts, i, j) && StopCut(pts, i, j, c) && Stop(pts, i, j, a, b)
    ensures c.end <= c.start < |pts| && Stop(pts, i, j, c.end, c.start)
    ensures pts[b].time - pts[a].time <= pts[c.start].time - pts[c.end].time
    ensures pts[b].time - pts[a].time == pts[c.start].time - pts[c.end].time ==> c.end <= a
  {
    assert Parked(pts[a]);
  }

  ghost function Ends(cuts: seq<Cut>): seq<int> {
    seq(|cuts|, g requires 0 <= g < |cuts| => cuts[g].end)
  }

  lemma EndsListed(pts: seq<TrackPoint>, a: seq<Cut>, b: seq<Cut>)
    requires CutsBefore(pts, a, |pts|) && CutsBefore(pts, b, |pts|)
    ensures Increasing(Ends(a)) && forall x :: x in Ends(a) ==> x in Ends(b)
  {
    hide GapsCut, StretchesCut;
    forall x | x in Ends(a)
      ensures x in Ends(b)
    {
      var g :| 0 <= g < |a| && Ends(a)[g] == x;
      assert IsCut(pts, a[g]);
      CutListed(pts, b, a[g]);
      var h :| 0 <= h < |b| && b[h] == a[g];
      assert Ends(b)[h] == x;
    }
  }

  /** A track has one list of cuts. */
  lemma SameCuts(pts: seq<TrackPoint>, a: seq<Cut>, b: seq<Cut>)
    requires CutsBefore(pts, a, |pts|) && CutsBefore(pts, b, |pts|)
    ensures a == b
  {
    EndsListed(pts, a, b);
    EndsListed(pts, b, a);
    IncreasingUnique(Ends(a), Ends(b));
    assert |a| == |Ends(a)| == |b|;
    hide GapsCut, StretchesCut;
    forall g | 0 <= g < |a|
      ensures a[g] == b[g]
    {
      assert IsCut(pts, a[g]);
      CutListed(pts, b, a[g]);
      var h :| 0 <= h < |b| && b[h] == a[g];
      assert Ends(a)[g] == Ends(b)[g] == b[g].end;
    }
  }

  /** The declarative account determines the groups. */
  lemma SplitIsUnique(pts: seq<TrackPoint>, gs: seq<Slice>, hs: seq<Slice>)
    requires IsSplit(pts, gs) && IsSplit(pts, hs)
    ensures gs == hs
  {
    var a: seq<Cut> :| SplitBy(pts, gs, a);
    var b: seq<Cut> :| SplitBy(pts, hs, b);
    SameCuts(pts, a, b);
  }
}
