/** Airborne periods and landings of one group: _airborne_periods and
    _count_landings. */
module Airborne {
  import opened Track

  /** First and last point of a stretch. */
  datatype Period = Period(first: nat, last: nat)

  /** A maximal run of fast points, flown for at least SUSTAIN. */
  ghost predicate SustainedRun(pts: seq<TrackPoint>, r: Period) {
    && r.first <= r.last < |pts|
    && (forall k :: r.first <= k <= r.last ==> Fast(pts[k]))
    && (r.first == 0 || !Fast(pts[r.first - 1]))
    && (r.last + 1 == |pts| || !Fast(pts[r.last + 1]))
    && Elapsed(pts, r.first, r.last) >= SUSTAIN
  }

  ghost predicate InOrder(ps: seq<Period>) {
    forall g, h :: 0 <= g < h < |ps| ==> ps[g].last < ps[h].first
  }

  /** `runs` lists, in order, the sustained runs that begin before point m. */
  ghost predicate RunsBefore(pts: seq<TrackPoint>, runs: seq<Period>, m: nat) {
    && (forall r :: r in runs ==> SustainedRun(pts, r) && r.last < m)
    && InOrder(runs)
    && (forall r :: SustainedRun(pts, r) && r.first < m ==> r in runs)
  }

  // ---------------------------------------------------------------- Specification

  /** A take-off: a sustained run begins, and none ended within SUSTAIN before. */
  ghost predicate TakeOff(pts: seq<TrackPoint>, r: Period) {
    && SustainedRun(pts, r)
    && forall q :: SustainedRun(pts, q) && q.last < r.first ==> Elapsed(pts, q.last, r.first) >= SUSTAIN
  }

  /** The end of flying: a sustained run ends, and none begins within SUSTAIN after. */
  ghost predicate Landing(pts: seq<TrackPoint>, r: Period) {
    && SustainedRun(pts, r)
    && forall q :: SustainedRun(pts, q) && r.last < q.first ==> Elapsed(pts, r.last, q.first) >= SUSTAIN
  }

  ghost predicate BeginsAt(pts: seq<TrackPoint>, first: nat) {
    exists r :: TakeOff(pts, r) && r.first == first
  }

  ghost predicate EndsAt(pts: seq<TrackPoint>, last: nat) {
    exists r :: Landing(pts, r) && r.last == last
  }

  ghost predicate HasFirst(ps: seq<Period>, first: nat) {
    exists g :: 0 <= g < |ps| && ps[g].first == first
  }

  ghost predicate HasLast(ps: seq<Period>, last: nat) {
    exists g :: 0 <= g < |ps| && ps[g].last == last
  }

  /** The periods run, in order, from every take-off to every end of flying. */
  ghost predicate IsPeriods(pts: seq<TrackPoint>, ps: seq<Period>) {
    && (forall g :: 0 <= g < |ps| ==> ps[g].first <= ps[g].last < |pts|)
    && InOrder(ps)
    && (forall g :: 0 <= g < |ps| ==> BeginsAt(pts, ps[g].first) && EndsAt(pts, ps[g].last))
    && (forall r :: TakeOff(pts, r) ==> HasFirst(ps, r.first))
    && (forall r :: Landing(pts, r) ==> HasLast(ps, r.last))
  }

  // ---------------------------------------------------------------- Collecting runs

  method SustainedRuns(pts: seq<TrackPoint>) returns (runs: seq<Period>)
    ensures RunsBefore(pts, runs, |pts|)
  {
    runs := [];
    var i := 0;
    while i < |pts|
      invariant i <= |pts| && (i == 0 || i == |pts| || !Fast(pts[i - 1]) || !Fast(pts[i]))
      invariant RunsBefore(pts, runs, i)
    {
      if !Fast(pts[i]) {
        i := i + 1;
        continue;
      }
      var j := i;
      while j + 1 < |pts| && Fast(pts[j + 1])
        invariant i <= j < |pts|
        invariant forall k :: i <= k <= j ==> Fast(pts[k])
      {
        j := j + 1;
      }
      OnlyRunFrom(pts, i, j);
      if Elapsed(pts, i, j) >= SUSTAIN {
        runs := runs + [Period(i, j)];
      }
      i := j + 1;
    }
  }

  lemma OnlyRunFrom(pts: seq<TrackPoint>, i: nat, j: nat)
    requires i <= j < |pts| && (forall k :: i <= k <= j ==> Fast(pts[k]))
    requires (i == 0 || !Fast(pts[i - 1])) && (j + 1 == |pts| || !Fast(pts[j + 1]))
    ensures forall r :: SustainedRun(pts, r) && i <= r.first <= j ==> r == Period(i, j)
  {
  }

  // ---------------------------------------------------------------- Joining runs

  /** A run takes off exactly when the run before it ended SUSTAIN or more earlier. */
  lemma TakeOffByNeighbour(pts: seq<TrackPoint>, runs: seq<Period>, x: nat)
    requires Sorted(pts) && RunsBefore(pts, runs, |pts|) && x < |runs|
    ensures SustainedRun(pts, runs[x]) && (x > 0 ==> SustainedRun(pts, runs[x - 1]))
    ensures x == 0 || Elapsed(pts, runs[x - 1].last, runs[x].first) >= SUSTAIN <==> TakeOff(pts, runs[x])
  {
  }

  /** A run ends the flying exactly when the next run begins SUSTAIN or more later. */
  lemma LandingByNeighbour(pts: seq<TrackPoint>, runs: seq<Period>, y: nat)
    requires Sorted(pts) && RunsBefore(pts, runs, |pts|) && y < |runs|
    ensures SustainedRun(pts, runs[y]) && (y + 1 < |runs| ==> SustainedRun(pts, runs[y + 1]))
    ensures y + 1 == |runs| || Elapsed(pts, runs[y].last, runs[y + 1].first) >= SUSTAIN <==> Landing(pts, runs[y])
  {
  }

  /** `ps` joins the first n runs; its last period is still open at the end. */
  ghost predicate Joined(pts: seq<TrackPoint>, runs: seq<Period>, ps: seq<Period>, n: nat)
    requires n <= |runs|
  {
    && (n == 0 <==> |ps| == 0)
    && (n > 0 ==> ps[|ps| - 1].last == runs[n - 1].last)
    && InOrder(ps)
    && (forall g :: 0 <= g < |ps| ==> ps[g].first <= ps[g].last < |pts| && BeginsAt(pts, ps[g].first))
    && (forall g :: 0 <= g < |ps| - 1 ==> EndsAt(pts, ps[g].last))
    && (forall x :: 0 <= x < n && TakeOff(pts, runs[x]) ==> HasFirst(ps, runs[x].first))
    && (forall y :: 0 <= y < n - 1 && Landing(pts, runs[y]) ==> HasLast(ps, runs[y].last))
  }

  lemma Append(pts: seq<TrackPoint>, runs: seq<Period>, ps: seq<Period>, n: nat)
    requires InOrder(runs) && n < |runs| && Joined(pts, runs, ps, n)
    requires runs[n].first <= runs[n].last < |pts| && (n > 0 ==> runs[n - 1].last < runs[n].first)
    requires TakeOff(pts, runs[n]) && (n > 0 ==> Landing(pts, runs[n - 1]))
    ensures Joined(pts, runs, ps + [runs[n]], n + 1)
  {
    hide TakeOff, Landing;
    var ps' := ps + [runs[n]];
    assert ps'[|ps|] == runs[n];
    Keeps(ps, ps');
    assert BeginsAt(pts, runs[n].first);
    if n > 0 {
      assert EndsAt(pts, runs[n - 1].last);
      assert ps'[|ps| - 1].last == runs[n - 1].last;
    }
  }

  lemma Prolong(pts: seq<TrackPoint>, runs: seq<Period>, ps: seq<Period>, n: nat)
    requires InOrder(runs) && 0 < n < |runs| && Joined(pts, runs, ps, n)
    requires runs[n].first <= runs[n].last < |pts| && runs[n - 1].last < runs[n].first
    requires forall y :: 0 <= y < n ==> runs[y].first <= runs[y].last
    requires !TakeOff(pts, runs[n]) && !Landing(pts, runs[n - 1])
    ensures Joined(pts, runs, ps[|ps| - 1 := Period(ps[|ps| - 1].first, runs[n].last)], n + 1)
  {
    hide TakeOff, Landing, BeginsAt, EndsAt;
    var last := |ps| - 1;
    var ps' := ps[last := Period(ps[last].first, runs[n].last)];
    forall x | 0 <= x < n && TakeOff(pts, runs[x])
      ensures HasFirst(ps', runs[x].first)
    {
      var g :| 0 <= g < |ps| && ps[g].first == runs[x].first;
      assert ps'[g].first == runs[x].first;
    }
    forall y | 0 <= y < n - 1 && Landing(pts, runs[y])
      ensures HasLast(ps', runs[y].last)
    {
      var g :| 0 <= g < |ps| && ps[g].last == runs[y].last;
      assert runs[y].last < runs[n - 1].first;
      assert ps'[g].last == runs[y].last;
    }
  }

  lemma Keeps(ps: seq<Period>, ps': seq<Period>)
    requires ps <= ps'
    ensures forall k :: HasFirst(ps, k) ==> HasFirst(ps', k)
    ensures forall k :: HasLast(ps, k) ==> HasLast(ps', k)
  {
  }

  method JoinRuns(pts: seq<TrackPoint>, runs: seq<Period>) returns (periods: seq<Period>)
    requires Sorted(pts) && RunsBefore(pts, runs, |pts|)
    ensures Joined(pts, runs, periods, |runs|)
  {
    hide Joined, RunsBefore, TakeOff, Landing;
    periods := [];
    Start(pts, runs);
    for n := 0 to |runs|
      invariant Joined(pts, runs, periods, n)
    {
      RunFacts(pts, runs, periods, n);
      var last := |periods| - 1;
      if |periods| > 0 && Elapsed(pts, periods[last].last, runs[n].first) < SUSTAIN {
        Prolong(pts, runs, periods, n);
        periods := periods[last := Period(periods[last].first, runs[n].last)];
      } else {
        Append(pts, runs, periods, n);
        periods := periods + [runs[n]];
      }
    }
  }

  lemma Start(pts: seq<TrackPoint>, runs: seq<Period>)
    ensures Joined(pts, runs, [], 0)
  {
  }

  lemma RunFacts(pts: seq<TrackPoint>, runs: seq<Period>, ps: seq<Period>, n: nat)
    requires Sorted(pts) && RunsBefore(pts, runs, |pts|) && n < |runs| && Joined(pts, runs, ps, n)
    ensures InOrder(runs) && (forall y :: 0 <= y <= n ==> runs[y].first <= runs[y].last < |pts|)
    ensures n == 0 <==> |ps| == 0
    ensures n > 0 ==> ps[|ps| - 1].last == runs[n - 1].last && runs[n - 1].last < runs[n].first
    ensures n == 0 || Elapsed(pts, runs[n - 1].last, runs[n].first) >= SUSTAIN <==> TakeOff(pts, runs[n])
    ensures n > 0 ==> (Elapsed(pts, runs[n - 1].last, runs[n].first) >= SUSTAIN <==> Landing(pts, runs[n - 1]))
  {
    hide TakeOff, Landing, BeginsAt, EndsAt, HasFirst, HasLast;
    TakeOffByNeighbour(pts, runs, n);
    if n > 0 {
      LandingByNeighbour(pts, runs, n - 1);
    }
    assert forall y :: 0 <= y <= n ==> runs[y] in runs;
  }

  lemma AllJoined(pts: seq<TrackPoint>, runs: seq<Period>, ps: seq<Period>)
    requires Sorted(pts) && RunsBefore(pts, runs, |pts|) && Joined(pts, runs, ps, |runs|)
    ensures IsPeriods(pts, ps)
  {
    hide TakeOff, Landing, SustainedRun;
    var n := |runs|;
    if n > 0 {
      LandingByNeighbour(pts, runs, n - 1);
      assert EndsAt(pts, runs[n - 1].last);
      assert ps[|ps| - 1].last == runs[n - 1].last;
    }
    hide RunsBefore, BeginsAt, EndsAt;
    forall r | TakeOff(pts, r)
      ensures HasFirst(ps, r.first)
    {
      InRuns(pts, runs, r);
    }
    forall r | Landing(pts, r)
      ensures HasLast(ps, r.last)
    {
      InRuns(pts, runs, r);
      var y :| 0 <= y < n && runs[y] == r;
      if y == n - 1 {
        assert ps[|ps| - 1].last == r.last;
      }
    }
  }

  lemma InRuns(pts: seq<TrackPoint>, runs: seq<Period>, r: Period)
    requires RunsBefore(pts, runs, |pts|) && (TakeOff(pts, r) || Landing(pts, r))
    ensures r in runs
  {
  }

  method AirbornePeriods(pts: seq<TrackPoint>) returns (periods: seq<Period>)
    requires Sorted(pts)
    ensures IsPeriods(pts, periods)
  {
    var runs := SustainedRuns(pts);
    periods := JoinRuns(pts, runs);
    AllJoined(pts, runs, periods);
  }
}
