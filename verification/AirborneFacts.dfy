/** What the airborne periods of a group tell about the flight. */
module AirborneFacts {
  import opened Track
  import opened Airborne
  import opened Sequences

  /** A run that reaches into another is that run. */
  lemma RunsApart(pts: seq<TrackPoint>, r: Period, q: Period)
    requires SustainedRun(pts, r) && SustainedRun(pts, q) && r.first <= q.last && q.first <= r.last
    ensures r == q
  {
  }

  /** Periods begin and end at fast points, last SUSTAIN or more, and successive
      ones are SUSTAIN or more apart. */
  lemma PeriodsAreFlights(pts: seq<TrackPoint>, ps: seq<Period>, g: nat)
    requires Sorted(pts) && IsPeriods(pts, ps) && g < |ps|
    ensures ps[g].first <= ps[g].last < |pts|
    ensures Fast(pts[ps[g].first]) && Fast(pts[ps[g].last])
    ensures Elapsed(pts, ps[g].first, ps[g].last) >= SUSTAIN
    ensures g + 1 < |ps| ==> ps[g].last < ps[g + 1].first < |pts|
                             && Elapsed(pts, ps[g].last, ps[g + 1].first) >= SUSTAIN
  {
    assert BeginsAt(pts, ps[g].first) && EndsAt(pts, ps[g].last);
    var r :| TakeOff(pts, r) && r.first == ps[g].first;
    var q :| Landing(pts, q) && q.last == ps[g].last;
    if q.last < r.last {
      RunsApart(pts, r, q);
    }
    if g + 1 < |ps| {
      assert BeginsAt(pts, ps[g + 1].first);
    }
  }

  ghost predicate Within(r: Period, p: Period) {
    p.first <= r.first && r.last <= p.last
  }

  /** The same in knots and seconds. */
  lemma PeriodsInNumbers(pts: seq<TrackPoint>, ps: seq<Period>, g: nat)
    requires Sorted(pts) && IsPeriods(pts, ps) && g < |ps|
    ensures ps[g].first <= ps[g].last < |pts|
    ensures pts[ps[g].first].speed >= 30.0 && pts[ps[g].last].speed >= 30.0
    ensures pts[ps[g].last].time - pts[ps[g].first].time >= 30 * 1_000_000
    ensures g + 1 < |ps| ==> ps[g].last < ps[g + 1].first < |pts|
                             && pts[ps[g + 1].first].time - pts[ps[g].last].time >= 30 * 1_000_000
  {
    PeriodsAreFlights(pts, ps, g);
  }

  /** A run that begins inside a period ends inside it. */
  lemma PeriodCovers(pts: seq<TrackPoint>, ps: seq<Period>, g: nat, r: Period)
    requires IsPeriods(pts, ps) && SustainedRun(pts, r) && g < |ps|
    requires ps[g].first <= r.first <= ps[g].last
    ensures Within(r, ps[g])
  {
    hide HasFirst, HasLast;
    assert EndsAt(pts, ps[g].last);
    var w :| Landing(pts, w) && w.last == ps[g].last;
    if w.first <= r.last {
      RunsApart(pts, r, w);
    }
  }

  /** A run less than SUSTAIN after one inside a period still begins inside it. */
  lemma PeriodGoesOn(pts: seq<TrackPoint>, ps: seq<Period>, g: nat, q: Period, r: Period)
    requires Sorted(pts) && IsPeriods(pts, ps) && g < |ps| && Within(q, ps[g])
    requires SustainedRun(pts, q) && SustainedRun(pts, r)
    requires q.last < r.first && Elapsed(pts, q.last, r.first) < SUSTAIN
    ensures ps[g].first <= r.first <= ps[g].last
  {
    hide HasFirst, HasLast;
    assert EndsAt(pts, ps[g].last);
    var w :| Landing(pts, w) && w.last == ps[g].last;
    assert pts[q.last].time <= pts[w.last].time;
  }

  /** Every sustained run lies inside a period. */
  lemma {:induction false} RunInSomePeriod(pts: seq<TrackPoint>, ps: seq<Period>, r: Period) returns (g: nat)
    requires Sorted(pts) && IsPeriods(pts, ps) && SustainedRun(pts, r)
    ensures g < |ps| && Within(r, ps[g])
    decreases r.first
  {
    hide BeginsAt, EndsAt;
    if TakeOff(pts, r) {
      assert HasFirst(ps, r.first);
      g :| 0 <= g < |ps| && ps[g].first == r.first;
    } else {
      var q :| SustainedRun(pts, q) && q.last < r.first && Elapsed(pts, q.last, r.first) < SUSTAIN;
      g := RunInSomePeriod(pts, ps, q);
      PeriodGoesOn(pts, ps, g, q, r);
    }
    PeriodCovers(pts, ps, g, r);
  }

  /** ...and of only one; without one the group is ground-only. */
  lemma RunInExactlyOnePeriod(pts: seq<TrackPoint>, ps: seq<Period>, r: Period)
    requires Sorted(pts) && IsPeriods(pts, ps) && SustainedRun(pts, r)
    ensures exists g :: 0 <= g < |ps| && Within(r, ps[g])
    ensures forall g, h :: 0 <= g < h < |ps| ==> !(Within(r, ps[g]) && Within(r, ps[h]))
  {
    var g := RunInSomePeriod(pts, ps, r);
  }

  lemma GroundOnlyIffNeverSustained(pts: seq<TrackPoint>, ps: seq<Period>)
    requires Sorted(pts) && IsPeriods(pts, ps)
    ensures ps == [] <==> forall r :: !SustainedRun(pts, r)
  {
    if ps != [] {
      assert BeginsAt(pts, ps[0].first);
    } else if exists r :: SustainedRun(pts, r) {
      var r :| SustainedRun(pts, r);
      var g := RunInSomePeriod(pts, ps, r);
    }
  }

  /** Two sustained runs with none in between are in one period exactly if less than
      30 seconds apart. */
  lemma SamePeriodIff(pts: seq<TrackPoint>, ps: seq<Period>, q: Period, r: Period)
    requires Sorted(pts) && IsPeriods(pts, ps) && SustainedRun(pts, q) && SustainedRun(pts, r) && q.last < r.first
    requires forall s :: SustainedRun(pts, s) ==> s.last <= q.last || r.first <= s.first
    ensures (exists g :: 0 <= g < |ps| && Within(q, ps[g]) && Within(r, ps[g]))
            <==> pts[r.first].time - pts[q.last].time < 30 * 1_000_000
  {
    hide IsPeriods;
    PeriodsListed(pts, ps);
    var g := RunInSomePeriod(pts, ps, q);
    if pts[r.first].time - pts[q.last].time < 30 * 1_000_000 {
      PeriodGoesOn(pts, ps, g, q, r);
      PeriodCovers(pts, ps, g, r);
    } else {
      assert TakeOff(pts, r);
      TakeOffListed(pts, ps, r);
    }
  }

  lemma LandingListed(pts: seq<TrackPoint>, ps: seq<Period>, r: Period)
    requires IsPeriods(pts, ps) && Landing(pts, r)
    ensures HasLast(ps, r.last)
  {
    hide BeginsAt, EndsAt, TakeOff, Landing;
  }

  lemma TakeOffListed(pts: seq<TrackPoint>, ps: seq<Period>, r: Period)
    requires IsPeriods(pts, ps) && TakeOff(pts, r)
    ensures HasFirst(ps, r.first)
  {
    hide TakeOff, Landing, BeginsAt, EndsAt;
  }

  // ---------------------------------------------------------------- Landings

  /** The number of periods the recording carries on after, in a group of n points. */
  function Landings(n: nat, ps: seq<Period>): nat {
    if ps == [] then 0
    else Landings(n, ps[..|ps| - 1]) + if ps[|ps| - 1].last + 1 < n then 1 else 0
  }

  /** Every period ends with a landing, except a last one the recording ends in. */
  lemma {:induction false} LandingCount(n: nat, ps: seq<Period>)
    requires InOrder(ps) && forall g :: 0 <= g < |ps| ==> ps[g].first <= ps[g].last < n
    ensures ps == [] ==> Landings(n, ps) == 0
    ensures ps != [] ==> Landings(n, ps) == |ps| - if ps[|ps| - 1].last == n - 1 then 1 else 0
  {
    if |ps| > 1 {
      LandingCount(n, ps[..|ps| - 1]);
    }
  }

  lemma PeriodsListed(pts: seq<TrackPoint>, ps: seq<Period>)
    requires IsPeriods(pts, ps)
    ensures InOrder(ps) && forall g :: 0 <= g < |ps| ==> ps[g].first <= ps[g].last < |pts|
  {
  }

  method CountLandings(pts: seq<TrackPoint>) returns (count: nat)
    requires Sorted(pts)
    ensures exists ps: seq<Period> :: IsPeriods(pts, ps) && count == Landings(|pts|, ps)
                         && count == if ps == [] then 0
                                     else |ps| - if ps[|ps| - 1].last == |pts| - 1 then 1 else 0
  {
    hide IsPeriods;
    var ps := AirbornePeriods(pts);
    PeriodsListed(pts, ps);
    LandingCount(|pts|, ps);
    count := 0;
    for k := 0 to |ps|
      invariant count == Landings(|pts|, ps[..k])
    {
      assert ps[..k + 1][..k] == ps[..k];
      if ps[k].last + 1 < |pts| {
        count := count + 1;
      }
    }
    assert ps[..|ps|] == ps;
  }

  /** The specification determines the periods. */
  lemma PeriodsUnique(pts: seq<TrackPoint>, ps: seq<Period>, qs: seq<Period>)
    requires IsPeriods(pts, ps) && IsPeriods(pts, qs)
    ensures ps == qs
  {
    SamePeriodEnds(pts, ps, qs);
    SamePeriodEnds(pts, qs, ps);
    IncreasingUnique(Firsts(ps), Firsts(qs));
    IncreasingUnique(Lasts(ps), Lasts(qs));
    forall g | 0 <= g < |ps|
      ensures g < |qs| && ps[g] == qs[g]
    {
      assert Firsts(ps)[g] == Firsts(qs)[g] && Lasts(ps)[g] == Lasts(qs)[g];
    }
    assert |ps| == |Firsts(ps)| == |qs|;
  }

  ghost function Firsts(ps: seq<Period>): seq<int> {
    seq(|ps|, g requires 0 <= g < |ps| => ps[g].first)
  }

  ghost function Lasts(ps: seq<Period>): seq<int> {
    seq(|ps|, g requires 0 <= g < |ps| => ps[g].last)
  }

  lemma BeginningListed(pts: seq<TrackPoint>, ps: seq<Period>, qs: seq<Period>, g: nat)
    requires IsPeriods(pts, ps) && IsPeriods(pts, qs) && g < |ps|
    ensures HasFirst(qs, ps[g].first) && HasLast(qs, ps[g].last)
  {
  }

  lemma SamePeriodEnds(pts: seq<TrackPoint>, ps: seq<Period>, qs: seq<Period>)
    requires IsPeriods(pts, ps) && IsPeriods(pts, qs)
    ensures Increasing(Firsts(ps)) && Increasing(Lasts(ps))
    ensures forall x :: x in Firsts(ps) ==> x in Firsts(qs)
    ensures forall x :: x in Lasts(ps) ==> x in Lasts(qs)
  {
    hide BeginsAt, EndsAt;
    forall x | x in Firsts(ps)
      ensures x in Firsts(qs)
    {
      var g :| 0 <= g < |ps| && Firsts(ps)[g] == x;
      BeginningListed(pts, ps, qs, g);
      var h :| 0 <= h < |qs| && qs[h].first == x;
      assert Firsts(qs)[h] == x;
    }
    forall x | x in Lasts(ps)
      ensures x in Lasts(qs)
    {
      var g :| 0 <= g < |ps| && Lasts(ps)[g] == x;
      BeginningListed(pts, ps, qs, g);
      var h :| 0 <= h < |qs| && qs[h].last == x;
      assert Lasts(qs)[h] == x;
    }
  }
}
