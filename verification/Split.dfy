/** Splitting a track into recording sessions and flights:
    _split_into_raw_groups, _recording_gap and _break_points.

    The loop is proved against a declarative account of where the track is cut.
    A cut keeps everything up to point `end` in one group and starts the next
    group at point `start`. */
module Split {
  import opened Options
  import opened Track

  datatype Cut = Cut(end: nat, start: nat)

  /** A group is the slice trackpoints[lo:hi]. */
  datatype Slice = Slice(lo: nat, hi: nat)

  function Points(pts: seq<TrackPoint>, g: Slice): seq<TrackPoint>
    requires g.lo <= g.hi <= |pts|
  {
    pts[g.lo..g.hi]
  }

  // ---------------------------------------------------------------- Where to cut

  /** The loop measures a slow stretch from a fast point, or from the slow point
      it lands on right after a fast point and one or more recording gaps. */
  ghost predicate Anchor(pts: seq<TrackPoint>, k: nat)
    requires k < |pts|
  {
    Fast(pts[k]) || (k > 0 && RecordingGap(pts, k - 1) && Anchor(pts, k - 1))
  }

  /** Unbroken slow points between an anchor and the next fast point, lasting
      long enough to be two flights. */
  ghost predicate LongStretch(pts: seq<TrackPoint>, i: nat, j: nat) {
    && i < j < |pts|
    && Anchor(pts, i) && Fast(pts[j])
    && SlowBetween(pts, i, j)
    && Unbroken(pts, i, j)
    && Elapsed(pts, i, j) >= SEGMENT_GAP
  }

  /** a..b is a maximal run of parked points strictly between i and j. */
  ghost predicate Stop(pts: seq<TrackPoint>, i: nat, j: nat, a: nat, b: nat)
    requires j < |pts|
  {
    && i < a <= b < j
    && (forall k :: a <= k <= b ==> Parked(pts[k]))
    && (a - 1 == i || !Parked(pts[a - 1]))
    && (b + 1 == j || !Parked(pts[b + 1]))
  }

  /** Stop a..b wins over stop c..d: longer, or as long and not later. */
  predicate Beats(pts: seq<TrackPoint>, a: nat, b: nat, c: nat, d: nat)
    requires a < |pts| && b < |pts| && c < |pts| && d < |pts|
  {
    Elapsed(pts, a, b) > Elapsed(pts, c, d) || (Elapsed(pts, a, b) == Elapsed(pts, c, d) && a <= c)
  }

  ghost predicate LongestStop(pts: seq<TrackPoint>, i: nat, j: nat, a: nat, b: nat)
    requires j < |pts|
  {
    && Stop(pts, i, j, a, b)
    && forall c: nat, d: nat :: Stop(pts, i, j, c, d) ==> Beats(pts, a, b, c, d)
  }

  ghost predicate NeverParked(pts: seq<TrackPoint>, i: nat, j: nat)
    requires j < |pts|
  {
    forall k :: i < k < j ==> !Parked(pts[k])
  }

  /** The cut of an unbroken slow stretch: at its longest stop (the earliest of
      equals), or around the whole stretch when the aircraft never parked. */
  ghost predicate StopCut(pts: seq<TrackPoint>, i: nat, j: nat, c: Cut)
    requires i < j < |pts|
  {
    if NeverParked(pts, i, j) then c == Cut(i, j) else LongestStop(pts, i, j, c.end, c.start)
  }

  ghost predicate GapCut(pts: seq<TrackPoint>, c: Cut) {
    c.end + 1 < |pts| && RecordingGap(pts, c.end) && c.start == c.end + 1
  }

  ghost predicate IsCut(pts: seq<TrackPoint>, c: Cut) {
    GapCut(pts, c) || exists i: nat, j: nat :: LongStretch(pts, i, j) && StopCut(pts, i, j, c)
  }

  ghost predicate Justified(pts: seq<TrackPoint>, cuts: seq<Cut>, m: nat) {
    && (forall c :: c in cuts ==> c.end < m)
    // the trigger keeps this conjunct and StretchesCut from feeding each other
    && (forall c {:trigger IsCut(pts, c)} :: c in cuts ==> IsCut(pts, c))
  }

  ghost predicate InOrder(cuts: seq<Cut>) {
    forall g, h :: 0 <= g < h < |cuts| ==> cuts[g].end < cuts[h].end && cuts[g].start <= cuts[h].end
  }

  ghost predicate GapsCut(pts: seq<TrackPoint>, cuts: seq<Cut>, m: nat) {
    forall k :: 0 <= k < m && k + 1 < |pts| && RecordingGap(pts, k) ==> Cut(k, k + 1) in cuts
  }

  ghost predicate StretchesCut(pts: seq<TrackPoint>, cuts: seq<Cut>, m: nat) {
    forall i: nat, j: nat :: LongStretch(pts, i, j) && j <= m ==> StretchCut(pts, i, j, cuts)
  }

  ghost predicate StretchCut(pts: seq<TrackPoint>, i: nat, j: nat, cuts: seq<Cut>)
    requires i < j < |pts|
  {
    exists c :: c in cuts && StopCut(pts, i, j, c)
  }

  /** `cuts` lists, in order, exactly the cuts that end before point m. */
  ghost predicate CutsBefore(pts: seq<TrackPoint>, cuts: seq<Cut>, m: nat) {
    && Justified(pts, cuts, m)
    && InOrder(cuts)
    && GapsCut(pts, cuts, m)
    && StretchesCut(pts, cuts, m)
  }

  // ---------------------------------------------------------------- The groups

  function GroupLo(cuts: seq<Cut>, g: nat): nat
    requires g <= |cuts|
  {
    if g == 0 then 0 else cuts[g - 1].start
  }

  function GroupHi(n: nat, cuts: seq<Cut>, g: nat): nat
    requires g <= |cuts|
  {
    if g == |cuts| then n else cuts[g].end + 1
  }

  function Groups(n: nat, cuts: seq<Cut>): (gs: seq<Slice>)
  {
    seq(|cuts| + 1, g requires 0 <= g <= |cuts| => Slice(GroupLo(cuts, g), GroupHi(n, cuts, g)))
  }

  /** The declarative result: the track cut at every cut and nowhere else. */
  ghost predicate SplitBy(pts: seq<TrackPoint>, gs: seq<Slice>, cuts: seq<Cut>) {
    CutsBefore(pts, cuts, |pts|) && gs == if |pts| == 0 then [] else Groups(|pts|, cuts)
  }

  ghost predicate IsSplit(pts: seq<TrackPoint>, gs: seq<Slice>) {
    exists cuts :: SplitBy(pts, gs, cuts)
  }

  // ---------------------------------------------------------------- Stretches

  /** An anchor between an anchor and a later point has a recording gap before it. */
  lemma AnchorReachesBack(pts: seq<TrackPoint>, i: nat, k: nat)
    requires i < k < |pts| && Anchor(pts, k)
    requires forall m :: i < m <= k ==> !Fast(pts[m])
    ensures RecordingGap(pts, i)
  {
  }

  /** A long stretch reaching into an unbroken anchored stretch is that stretch. */
  lemma StretchUnique(pts: seq<TrackPoint>, i: nat, j: nat, i': nat, j': nat)
    requires i < j < |pts| && Anchor(pts, i) && !RecordingGap(pts, i)
    requires Fast(pts[j]) && SlowBetween(pts, i, j)
    requires LongStretch(pts, i', j') && i' < j && i < j'
    ensures i' == i && j' == j
  {
    if i' > i {
      AnchorReachesBack(pts, i, i');
    }
  }

  /** Every cut lies inside its own stretch. */
  lemma StopCutInside(pts: seq<TrackPoint>, i: nat, j: nat, c: Cut)
    requires i < j < |pts| && StopCut(pts, i, j, c)
    ensures i <= c.end <= c.start <= j && c.end < j && i < c.start
  {
  }

  lemma StopCutUnique(pts: seq<TrackPoint>, i: nat, j: nat, c: Cut, d: Cut)
    requires i < j < |pts| && StopCut(pts, i, j, c) && StopCut(pts, i, j, d)
    ensures c == d
  {
  }

  // ---------------------------------------------------------------- The code

  /** The first and last recording gap between two points, if there is one. */
  method Gaps(pts: seq<TrackPoint>, lastFast: nat, nextFast: nat) returns (gaps: seq<nat>)
    requires lastFast < nextFast < |pts|
    ensures |gaps| == 0 <==> Unbroken(pts, lastFast, nextFast)
    ensures |gaps| > 0 ==>
              && lastFast <= gaps[0] <= gaps[|gaps| - 1] < nextFast
              && RecordingGap(pts, gaps[0]) && RecordingGap(pts, gaps[|gaps| - 1])
              && Unbroken(pts, lastFast, gaps[0]) && Unbroken(pts, gaps[|gaps| - 1] + 1, nextFast)
  {
    gaps := [];
    for k := lastFast to nextFast
      invariant |gaps| == 0 <==> Unbroken(pts, lastFast, k)
      invariant |gaps| > 0 ==>
                  && lastFast <= gaps[0] <= gaps[|gaps| - 1] < k
                  && RecordingGap(pts, gaps[0]) && RecordingGap(pts, gaps[|gaps| - 1])
                  && Unbroken(pts, lastFast, gaps[0]) && Unbroken(pts, gaps[|gaps| - 1] + 1, k)
    {
      if RecordingGap(pts, k) {
        gaps := gaps + [k];
      }
    }
  }

  /** `best` wins over every stop that begins before k. */
  ghost predicate BestBefore(pts: seq<TrackPoint>, i: nat, j: nat, best: Option<Cut>, k: nat)
    requires j < |pts|
  {
    match best
    case None => NeverParked(pts, i, if k < j then k else j)
    case Some(b) =>
      && Stop(pts, i, j, b.end, b.start)
      && forall c: nat, d: nat :: Stop(pts, i, j, c, d) && c < k ==> Beats(pts, b.end, b.start, c, d)
  }

  lemma BetterStop(pts: seq<TrackPoint>, i: nat, j: nat, best: Option<Cut>, a: nat, b: nat)
    requires j < |pts| && BestBefore(pts, i, j, best, a) && Stop(pts, i, j, a, b)
    requires best.Some? ==> best.value.end < a
    ensures var longer := best.None? || Elapsed(pts, a, b) > Elapsed(pts, best.value.end, best.value.start);
            BestBefore(pts, i, j, if longer then Some(Cut(a, b)) else best, b + 1)
  {
    forall c: nat, d: nat | Stop(pts, i, j, c, d) && a <= c <= b
      ensures c == a && d == b
    {
    }
    if best.None? {
      forall c: nat, d: nat | Stop(pts, i, j, c, d)
        ensures c >= a
      {
        assert Parked(pts[c]);
      }
    }
  }

  method BreakPoints(pts: seq<TrackPoint>, lastFast: nat, nextFast: nat) returns (end: nat, start: nat)
    requires lastFast < nextFast < |pts|
    ensures lastFast <= end <= start <= nextFast && end < nextFast && lastFast < start
    ensures Unbroken(pts, lastFast, nextFast) ==> StopCut(pts, lastFast, nextFast, Cut(end, start))
    ensures !Unbroken(pts, lastFast, nextFast) ==>
              && RecordingGap(pts, end) && RecordingGap(pts, start - 1)
              && Unbroken(pts, lastFast, end) && Unbroken(pts, start, nextFast)
  {
    var gaps := Gaps(pts, lastFast, nextFast);
    if |gaps| > 0 {
      return gaps[0], gaps[|gaps| - 1] + 1;
    }

    var best: Option<Cut> := None;
    var k := lastFast + 1;
    while k < nextFast
      invariant lastFast < k <= nextFast
      invariant k - 1 == lastFast || k == nextFast || !Parked(pts[k - 1]) || !Parked(pts[k])
      invariant best.Some? ==> best.value.end < k
      invariant BestBefore(pts, lastFast, nextFast, best, k)
    {
      if !Parked(pts[k]) {
        k := k + 1;
        continue;
      }
      var stopStart := k;
      while k + 1 < nextFast && Parked(pts[k + 1])
        invariant stopStart <= k < nextFast
        invariant forall m :: stopStart <= m <= k ==> Parked(pts[m])
      {
        k := k + 1;
      }
      BetterStop(pts, lastFast, nextFast, best, stopStart, k);
      if best.None? || Elapsed(pts, stopStart, k) > Elapsed(pts, best.value.end, best.value.start) {
        best := Some(Cut(stopStart, k));
      }
      k := k + 1;
    }
    if best.Some? {
      assert Parked(pts[best.value.end]);
      return best.value.end, best.value.start;
    }
    return lastFast, nextFast;
  }

  /** All cuts before m are made; the groups closed so far lie before them. */
  ghost predicate CutUpTo(pts: seq<TrackPoint>, groups: seq<Slice>, currentStart: nat, cuts: seq<Cut>, m: nat) {
    && CutsBefore(pts, cuts, m)
    && currentStart == GroupLo(cuts, |cuts|) <= m
    && groups == ClosedGroups(cuts)
  }

  /** The groups that the cuts so far have closed. */
  ghost function ClosedGroups(cuts: seq<Cut>): seq<Slice> {
    seq(|cuts|, g requires 0 <= g < |cuts| => Slice(GroupLo(cuts, g), cuts[g].end + 1))
  }

  lemma CloseLastGroup(n: nat, cuts: seq<Cut>)
    ensures Groups(n, cuts) == ClosedGroups(cuts) + [Slice(GroupLo(cuts, |cuts|), n)]
  {
  }

  /** Cuts stay as they are when one more is made after them. */
  lemma Extend(pts: seq<TrackPoint>, cuts: seq<Cut>, m: nat, c: Cut, m': nat)
    requires CutsBefore(pts, cuts, m) && GroupLo(cuts, |cuts|) <= m
    requires m <= c.end < m' && IsCut(pts, c)
    ensures Justified(pts, cuts + [c], m') && InOrder(cuts + [c])
    ensures GapsCut(pts, cuts + [c], m) && StretchesCut(pts, cuts + [c], m)
  {
    var cuts' := cuts + [c];
    forall g, h | 0 <= g < h < |cuts'|
      ensures cuts'[g].end < cuts'[h].end && cuts'[g].start <= cuts'[h].end
    {
      if h == |cuts| {
        assert cuts[g] in cuts;
        if g < |cuts| - 1 { assert cuts[g].start <= cuts[|cuts| - 1].end; }
        assert cuts[|cuts| - 1] in cuts;
      }
    }
    forall i: nat, j: nat | LongStretch(pts, i, j) && j <= m
      ensures StretchCut(pts, i, j, cuts')
    {
      var d :| d in cuts && StopCut(pts, i, j, d);
      assert d in cuts';
    }
  }

  lemma AddGap(pts: seq<TrackPoint>, cuts: seq<Cut>, m: nat, k: nat)
    requires m <= k && k + 1 < |pts| && CutsBefore(pts, cuts, m) && GroupLo(cuts, |cuts|) <= m
    requires Unbroken(pts, m, k) && RecordingGap(pts, k)
    requires NoStretchEnds(pts, m, k + 1)
    ensures CutsBefore(pts, cuts + [Cut(k, k + 1)], k + 1)
  {
    assert GapCut(pts, Cut(k, k + 1));
    Extend(pts, cuts, m, Cut(k, k + 1), k + 1);
  }

  lemma AddNothing(pts: seq<TrackPoint>, cuts: seq<Cut>, k: nat, m: nat)
    requires k <= m && CutsBefore(pts, cuts, k)
    requires forall x :: k <= x < m && x + 1 < |pts| ==> !RecordingGap(pts, x)
    requires NoStretchEnds(pts, k, m)
    ensures CutsBefore(pts, cuts, m)
  {
  }

  lemma AddStop(pts: seq<TrackPoint>, cuts: seq<Cut>, i: nat, j: nat, c: Cut)
    requires CutsBefore(pts, cuts, i) && GroupLo(cuts, |cuts|) <= i
    requires LongStretch(pts, i, j) && StopCut(pts, i, j, c)
    ensures CutsBefore(pts, cuts + [c], j)
  {
    StopCutInside(pts, i, j, c);
    assert IsCut(pts, c);
    Extend(pts, cuts, i, c, j);
    forall i': nat, j': nat | LongStretch(pts, i', j') && i < j' <= j
      ensures StretchCut(pts, i', j', cuts + [c])
    {
      StretchUnique(pts, i, j, i', j');
      assert c in cuts + [c];
    }
  }

  /** No long stretch ends in (a, b]. */
  ghost predicate NoStretchEnds(pts: seq<TrackPoint>, a: nat, b: nat) {
    forall i: nat, j: nat :: LongStretch(pts, i, j) ==> j <= a || j > b
  }

  /** The loop that closes a group at every recording gap among points a..b:
      before the first flight, between two, after the last, and when nothing flew. */
  method CutGaps(pts: seq<TrackPoint>, groups0: seq<Slice>, start: nat, a: nat, b: nat, ghost cuts0: seq<Cut>)
    returns (groups: seq<Slice>, currentStart: nat, ghost cuts: seq<Cut>)
    requires a <= b < |pts| && NoStretchEnds(pts, a, b)
    requires CutUpTo(pts, groups0, start, cuts0, a)
    ensures CutUpTo(pts, groups, currentStart, cuts, b)
    ensures if a < b && RecordingGap(pts, b - 1) then currentStart == b
            else Unbroken(pts, a, b) ==> currentStart == start
  {
    hide CutsBefore, LongStretch;
    groups, currentStart, cuts := groups0, start, cuts0;
    for k := a to b
      invariant CutUpTo(pts, groups, currentStart, cuts, k)
      invariant if a < k && RecordingGap(pts, k - 1) then currentStart == k
                else Unbroken(pts, a, k) ==> currentStart == start
    {
      if RecordingGap(pts, k) {
        AddGap(pts, cuts, k, k);
        groups, currentStart, cuts := groups + [Slice(currentStart, k + 1)], k + 1, cuts + [Cut(k, k + 1)];
      } else {
        AddNothing(pts, cuts, k, k + 1);
      }
    }
  }

  method FastIndices(pts: seq<TrackPoint>) returns (fast: seq<nat>)
    ensures forall f :: 0 <= f < |fast| ==> fast[f] < |pts| && Fast(pts[fast[f]])
    ensures |fast| == 0 ==> forall k :: 0 <= k < |pts| ==> !Fast(pts[k])
    ensures |fast| > 0 ==> fast[0] <= fast[|fast| - 1]
    ensures |fast| > 0 ==> forall k :: 0 <= k < |pts| && Fast(pts[k]) ==> fast[0] <= k <= fast[|fast| - 1]
  {
    fast := [];
    for k := 0 to |pts|
      invariant forall f :: 0 <= f < |fast| ==> fast[f] < k && Fast(pts[fast[f]])
      invariant |fast| == 0 ==> forall m :: 0 <= m < k ==> !Fast(pts[m])
      invariant |fast| > 0 ==> fast[0] <= fast[|fast| - 1]
      invariant |fast| > 0 ==> forall m :: 0 <= m < k && Fast(pts[m]) ==> fast[0] <= m <= fast[|fast| - 1]
    {
      if Fast(pts[k]) {
        fast := fast + [k];
      }
    }
  }

  lemma AnchorNeedsFast(pts: seq<TrackPoint>, k: nat) returns (f: nat)
    requires k < |pts| && Anchor(pts, k)
    ensures f <= k && Fast(pts[f])
  {
    f := k;
    if !Fast(pts[k]) {
      f := AnchorNeedsFast(pts, k - 1);
    }
  }

  lemma NoStretchBeforeFast(pts: seq<TrackPoint>, firstFast: nat)
    requires firstFast < |pts| && forall k :: 0 <= k < firstFast ==> !Fast(pts[k])
    ensures NoStretchEnds(pts, 0, firstFast)
  {
    forall i: nat, j: nat | LongStretch(pts, i, j)
      ensures j > firstFast
    {
      var f := AnchorNeedsFast(pts, i);
    }
  }

  lemma NoStretchAfterFast(pts: seq<TrackPoint>, lastFast: nat)
    requires forall k :: 0 <= k < |pts| && Fast(pts[k]) ==> k <= lastFast
    ensures forall n: nat, m: nat :: lastFast <= n ==> NoStretchEnds(pts, n, m)
  {
  }

  lemma NoStretchAcrossGap(pts: seq<TrackPoint>, k: nat)
    requires k + 1 < |pts| && RecordingGap(pts, k)
    ensures NoStretchEnds(pts, k, k + 1)
  {
  }

  lemma NoFastNoStretch(pts: seq<TrackPoint>)
    requires forall k :: 0 <= k < |pts| ==> !Fast(pts[k])
    ensures forall n: nat, m: nat :: NoStretchEnds(pts, n, m)
  {
  }

  lemma NothingCutYet(pts: seq<TrackPoint>)
    ensures CutUpTo(pts, [], 0, [], 0) && CutsBefore(pts, [], 0)
  {
  }

  /** The groups are returned without the empty ones. */
  function NonEmpty(groups: seq<Slice>): seq<Slice> {
    if |groups| == 0 then []
    else (if groups[0].lo < groups[0].hi then [groups[0]] else []) + NonEmpty(groups[1..])
  }

  lemma NonEmptyKeepsAll(groups: seq<Slice>)
    requires forall g :: g in groups ==> g.lo < g.hi
    ensures NonEmpty(groups) == groups
  {
  }

  /** The jumping-index loop between the first and the last fast point. */
  method SplitFlights(pts: seq<TrackPoint>, groups0: seq<Slice>, start: nat, firstFast: nat, lastFast: nat,
                      ghost cuts0: seq<Cut>)
    returns (groups: seq<Slice>, currentStart: nat, ghost cuts: seq<Cut>)
    requires Sorted(pts) && firstFast <= lastFast < |pts| && Fast(pts[firstFast]) && Fast(pts[lastFast])
    requires CutUpTo(pts, groups0, start, cuts0, firstFast)
    ensures CutUpTo(pts, groups, currentStart, cuts, lastFast)
  {
    hide CutsBefore, LongStretch;
    groups, currentStart, cuts := groups0, start, cuts0;
    var i := firstFast;
    while i < lastFast
      invariant firstFast <= i <= lastFast && Anchor(pts, i)
      invariant CutUpTo(pts, groups, currentStart, cuts, i)
    {
      if RecordingGap(pts, i) {
        NoStretchAcrossGap(pts, i);
        AddGap(pts, cuts, i, i);
        groups, currentStart, cuts := groups + [Slice(currentStart, i + 1)], i + 1, cuts + [Cut(i, i + 1)];
        i := i + 1;
        continue;
      }
      if !Fast(pts[i + 1]) {
        var j := i + 2;
        while j <= lastFast && !Fast(pts[j])
          invariant i + 2 <= j <= lastFast && SlowBetween(pts, i, j)
        {
          j := j + 1;
        }
        if Elapsed(pts, i, j) >= SEGMENT_GAP {
          groups, currentStart, cuts := SplitStretch(pts, groups, currentStart, i, j, cuts);
        } else {
          ShortStretch(pts, i, j);
          AddNothing(pts, cuts, i, j);
        }
        i := j;
      } else {
        ShortStretch(pts, i, i + 1);
        AddNothing(pts, cuts, i, i + 1);
        i := i + 1;
      }
    }
  }

  method Split(pts: seq<TrackPoint>) returns (groups: seq<Slice>)
    requires Sorted(pts)
    ensures IsSplit(pts, groups)
  {
    hide CutsBefore, LongStretch;
    NothingCutYet(pts);
    var n := |pts|;
    if n == 0 {
      assert SplitBy(pts, [], []);
      return [];
    }
    ghost var cuts: seq<Cut>;
    var currentStart: nat;
    var fast := FastIndices(pts);
    if |fast| == 0 {
      NoFastNoStretch(pts);
      groups, currentStart, cuts := CutGaps(pts, [], 0, 0, n - 1, []);
    } else {
      var firstFast, lastFast := fast[0], fast[|fast| - 1];
      NoStretchBeforeFast(pts, firstFast);
      NoStretchAfterFast(pts, lastFast);
      groups, currentStart, cuts := CutGaps(pts, [], 0, 0, firstFast, []);
      groups, currentStart, cuts := SplitFlights(pts, groups, currentStart, firstFast, lastFast, cuts);
      groups, currentStart, cuts := CutGaps(pts, groups, currentStart, lastFast, n - 1, cuts);
    }
    AddNothing(pts, cuts, n - 1, n);
    LastGroup(pts, groups, currentStart, cuts);
    groups := NonEmpty(groups + [Slice(currentStart, n)]);
    assert SplitBy(pts, groups, cuts);
  }

  /** Closing the last group completes the split; no group is empty. */
  lemma LastGroup(pts: seq<TrackPoint>, groups: seq<Slice>, currentStart: nat, cuts: seq<Cut>)
    requires |pts| > 0 && CutUpTo(pts, groups, currentStart, cuts, |pts|)
    ensures NonEmpty(groups + [Slice(currentStart, |pts|)]) == Groups(|pts|, cuts)
  {
    CloseLastGroup(|pts|, cuts);
    SlicesNonEmpty(pts, cuts);
    NonEmptyKeepsAll(groups + [Slice(currentStart, |pts|)]);
  }

  /** A stretch shorter than SEGMENT_GAP holds no cut. */
  lemma ShortStretch(pts: seq<TrackPoint>, i: nat, j: nat)
    requires Sorted(pts) && i < j < |pts| && Anchor(pts, i) && !RecordingGap(pts, i)
    requires Fast(pts[j]) && SlowBetween(pts, i, j)
    requires Elapsed(pts, i, j) < SEGMENT_GAP
    ensures Unbroken(pts, i, j)
    ensures NoStretchEnds(pts, i, j)
  {
  }

  /** A real break between two flights, from the anchor i to the fast point j. */
  method SplitStretch(pts: seq<TrackPoint>, groups0: seq<Slice>, start: nat, i: nat, j: nat, ghost cuts0: seq<Cut>)
    returns (groups: seq<Slice>, currentStart: nat, ghost cuts: seq<Cut>)
    requires i < j < |pts| && Anchor(pts, i) && !RecordingGap(pts, i)
    requires Fast(pts[j]) && SlowBetween(pts, i, j)
    requires Elapsed(pts, i, j) >= SEGMENT_GAP
    requires CutUpTo(pts, groups0, start, cuts0, i)
    ensures CutUpTo(pts, groups, currentStart, cuts, j)
  {
    hide CutsBefore, StopCut;
    var endPrev, startNext := BreakPoints(pts, i, j);
    groups := groups0 + [Slice(start, endPrev + 1)];
    cuts := cuts0;
    if RecordingGap(pts, endPrev) {
      BrokenStretch(pts, i, j);
      AddGap(pts, cuts, i, endPrev);
      cuts := cuts + [Cut(endPrev, endPrev + 1)];
      groups, currentStart, cuts := CutGaps(pts, groups, endPrev + 1, endPrev + 1, startNext, cuts);
      AddNothing(pts, cuts, startNext, j);
    } else {
      AddStop(pts, cuts, i, j, Cut(endPrev, startNext));
      cuts := cuts + [Cut(endPrev, startNext)];
    }
    currentStart := startNext;
  }

  lemma BrokenStretch(pts: seq<TrackPoint>, i: nat, j: nat)
    requires i < j < |pts| && Anchor(pts, i) && !RecordingGap(pts, i)
    requires Fast(pts[j]) && SlowBetween(pts, i, j) && !Unbroken(pts, i, j)
    ensures NoStretchEnds(pts, i, j)
  {
    forall i': nat, j': nat | LongStretch(pts, i', j') && i < j' <= j
      ensures false
    {
      StretchUnique(pts, i, j, i', j');
    }
  }

  /** Consecutive cuts leave at least one point between them. */
  lemma SlicesNonEmpty(pts: seq<TrackPoint>, cuts: seq<Cut>)
    requires |pts| > 0 && CutsBefore(pts, cuts, |pts|)
    ensures forall g :: g in Groups(|pts|, cuts) ==> g.lo < g.hi <= |pts|
  {
    forall c | c in cuts
      ensures c.end < |pts| && c.start < |pts|
    {
      if !GapCut(pts, c) {
        assert IsCut(pts, c);
        var i: nat, j: nat :| LongStretch(pts, i, j) && StopCut(pts, i, j, c);
        StopCutInside(pts, i, j, c);
      }
    }
  }
}
