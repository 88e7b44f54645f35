/** What cleaning keeps of the fixes given to it, point by point. */
module CleaningFacts {
  import opened StableSort
  import opened Sequences
  import opened BadFixes

  predicate AtZero(p: Fix) {
    p.lat == 0.0 && p.lon == 0.0
  }


  /** `places` lists, in order, the places of the points away from (0, 0). */
  ghost predicate AwayPlaces(points: seq<Fix>, kept: seq<Fix>, places: seq<int>) {
    && |places| == |kept| && Increasing(places)
    && (forall k :: 0 <= k < |places| ==> 0 <= places[k] < |points| && kept[k] == points[places[k]])
    && (forall i :: 0 <= i < |points| ==> (i in places <==> !AtZero(points[i])))
  }

  lemma {:induction false} NonZeroPlaces(points: seq<Fix>) returns (places: seq<int>)
    ensures AwayPlaces(points, NonZero(points), places)
  {
    if points == [] {
      places := [];
    } else {
      hide AwayPlaces, AtZero, NonZero;
      var p, tail := points[0], points[1..];
      var rest := NonZeroPlaces(tail);
      places := FirstPlace(p, tail, NonZero(tail), rest);
      NonZeroStep(points);
    }
  }

  lemma {:induction false} NonZeroStep(points: seq<Fix>)
    requires points != []
    ensures points == [points[0]] + points[1..]
    ensures NonZero(points) == (if AtZero(points[0]) then [] else [points[0]]) + NonZero(points[1..])
  {
  }

  lemma FirstPlace(p: Fix, tail: seq<Fix>, kept: seq<Fix>, rest: seq<int>) returns (places: seq<int>)
    requires AwayPlaces(tail, kept, rest)
    ensures AwayPlaces([p] + tail, (if AtZero(p) then [] else [p]) + kept, places)
  {
    var later := LaterPlaces(p, tail, kept, rest);
    hide AtZero;
    if AtZero(p) {
      places := later;
      assert [] + kept == kept;
      assert AwayPlaces([p] + tail, kept, later);
    } else {
      places := [0] + later;
      WithFirst([p] + tail, p, kept, later);
    }
  }

  lemma WithFirst(points: seq<Fix>, p: Fix, kept: seq<Fix>, later: seq<int>)
    requires |later| == |kept| && Increasing(later) && points != [] && points[0] == p && !AtZero(p)
    requires forall k :: 0 <= k < |later| ==> 0 < later[k] < |points| && kept[k] == points[later[k]]
    requires forall i :: 0 <= i < |points| ==> (i in later <==> i > 0 && !AtZero(points[i]))
    ensures AwayPlaces(points, [p] + kept, [0] + later)
  {
    hide AtZero, Increasing;
    var places := [0] + later;
    FirstIncreases(later);
    forall k | 0 <= k < |places|
      ensures 0 <= places[k] < |points| && ([p] + kept)[k] == points[places[k]]
    {
      if k > 0 { assert places[k] == later[k - 1]; }
    }
    forall i | 0 <= i < |points|
      ensures i in places <==> !AtZero(points[i])
    {
      assert i in places <==> i == 0 || i in later;
    }
  }

  lemma FirstIncreases(later: seq<int>)
    requires Increasing(later) && forall k :: 0 <= k < |later| ==> 0 < later[k]
    ensures Increasing([0] + later)
  {
    var places := [0] + later;
    forall i, j | 0 <= i < j < |places|
      ensures places[i] < places[j]
    {
      assert places[j] == later[j - 1] && (i > 0 ==> places[i] == later[i - 1]);
    }
  }

  lemma LaterPlaces(p: Fix, tail: seq<Fix>, kept: seq<Fix>, rest: seq<int>) returns (later: seq<int>)
    requires AwayPlaces(tail, kept, rest)
    ensures |later| == |kept| && Increasing(later)
    ensures forall k :: 0 <= k < |later| ==> 0 < later[k] <= |tail| && kept[k] == ([p] + tail)[later[k]]
    ensures forall i :: 0 <= i <= |tail| ==> (i in later <==> i > 0 && !AtZero(([p] + tail)[i]))
  {
    var points := [p] + tail;
    later := Shifted(rest);
    forall k | 0 <= k < |later|
      ensures 0 < later[k] <= |tail| && kept[k] == points[later[k]]
    {
      assert points[later[k]] == tail[rest[k]];
    }
    forall i | 0 <= i <= |tail|
      ensures i in later <==> i > 0 && !AtZero(points[i])
    {
      ShiftedMember(rest, i);
      if i > 0 { assert points[i] == tail[i - 1]; }
    }
  }

  lemma ShiftedMember(rest: seq<int>, i: int)
    ensures i in Shifted(rest) <==> i - 1 in rest
  {
    if i - 1 in rest {
      var k :| 0 <= k < |rest| && rest[k] == i - 1;
      assert Shifted(rest)[k] == i;
    }
  }

  /** `from` lists every place of a point away from (0, 0), once, by time and then by place. */
  ghost predicate FromEachOnce(points: seq<Fix>, ordered: seq<Fix>, from: seq<int>) {
    && |from| == |ordered|
    && (forall k :: 0 <= k < |from| ==> 0 <= from[k] < |points| && ordered[k] == points[from[k]])
    && (forall i :: i in from <==> 0 <= i < |points| && !AtZero(points[i]))
    && (forall i, j :: 0 <= i < j < |from| ==>
          ordered[i].time < ordered[j].time || (ordered[i].time == ordered[j].time && from[i] < from[j]))
  }

  /** The ordered track holds every point away from (0, 0), once, in time order, and
      points of one time in the order given. */
  lemma OrderedAsGiven(points: seq<Fix>) returns (from: seq<int>)
    ensures FromEachOnce(points, Ordered(points), from)
  {
    var places := NonZeroPlaces(points);
    var order := SortComesFrom(NonZero(points), ByTime());
    from := Through(points, NonZero(points), places, Ordered(points), order);
  }

  lemma Through(points: seq<Fix>, kept: seq<Fix>, places: seq<int>, ordered: seq<Fix>, order: seq<int>)
    returns (from: seq<int>)
    requires AwayPlaces(points, kept, places) && ComesFrom(kept, ByTime(), ordered, order)
    ensures FromEachOnce(points, ordered, from)
  {
    from := seq(|order|, k requires 0 <= k < |order| => places[order[k]]);
    ThroughOrder(points, kept, places, ordered, order, from);
    hide Increasing;
    forall i
      ensures i in from <==> i in places
    {
      if i in places {
        var k :| 0 <= k < |places| && places[k] == i;
        OrderCoversAll(kept, ByTime(), ordered, order, k);
        var m :| 0 <= m < |order| && order[m] == k;
        assert from[m] == i;
      }
    }
    assert forall i :: i in places ==> 0 <= i < |points|;
  }

  lemma ThroughOrder(points: seq<Fix>, kept: seq<Fix>, places: seq<int>, ordered: seq<Fix>, order: seq<int>,
                     from: seq<int>)
    requires AwayPlaces(points, kept, places) && ComesFrom(kept, ByTime(), ordered, order)
    requires |from| == |order| && forall k :: 0 <= k < |order| ==> from[k] == places[order[k]]
    ensures forall i, j :: 0 <= i < j < |from| ==>
              ordered[i].time < ordered[j].time || (ordered[i].time == ordered[j].time && from[i] < from[j])
  {
    forall i, j | 0 <= i < j < |from|
      ensures ordered[i].time < ordered[j].time || (ordered[i].time == ordered[j].time && from[i] < from[j])
    {
      assert kept[order[i]] == ordered[i] && kept[order[j]] == ordered[j];
      assert ByTime()(ordered[i]) == ordered[i].time as real && ByTime()(ordered[j]) == ordered[j].time as real;
    }
  }

  /** As many different places as there are leave none out. */
  lemma OrderCoversAll<T>(s: seq<T>, key: T -> real, sorted: seq<T>, order: seq<int>, k: nat)
    requires ComesFrom(s, key, sorted, order) && k < |s|
    ensures k in order
  {
    var found := set m | 0 <= m < |order| :: order[m];
    DistinctPlaces(order, found);
    CountRange(|s|, found);
    assert k in found;
  }

  lemma {:induction false} DistinctPlaces(order: seq<int>, found: set<int>)
    requires forall i, j :: 0 <= i < j < |order| ==> order[i] != order[j]
    requires found == set m | 0 <= m < |order| :: order[m]
    ensures |found| == |order|
  {
    if order != [] {
      var init, last := order[..|order| - 1], order[|order| - 1];
      var fewer := set m | 0 <= m < |init| :: init[m];
      DistinctPlaces(init, fewer);
      assert order == init + [last];
      assert last !in fewer;
      assert found == fewer + {last};
    }
  }

  // ---------------------------------------------------------------- What is kept

  /** A jump is more than half a mile, at more than 600 knots or in no time. */
  lemma JumpInNumbers(nm: Distance, a: Fix, b: Fix)
    ensures var seconds := (b.time - a.time) as real / 1000000.0;
            Jump(nm, a, b) <==> nm(a, b) > 0.5 && (seconds <= 0.0 || nm(a, b) > 600.0 * (seconds / 3600.0))
    ensures MIN_FIX_RUN == 60 * 1_000_000
  {
    var seconds := (b.time - a.time) as real / 1000000.0;
    if seconds > 0.0 {
      var v := nm(a, b) * 3600.0 / seconds;
      assert v * seconds == nm(a, b) * 3600.0;
      Faster(v, seconds);
    }
  }

  lemma Faster(v: real, seconds: real)
    requires seconds > 0.0
    ensures v > 600.0 <==> v * seconds > 600.0 * seconds
  {
    assert v * seconds - 600.0 * seconds == (v - 600.0) * seconds;
  }

  /** The step after point m is a jump. */
  ghost predicate JumpAfter(nm: Distance, track: seq<Fix>, m: nat)
    requires m + 1 < |track|
  {
    Jump(nm, track[m], track[m + 1])
  }

  /** Points a..b of a track were recorded without a jump for a minute or more. */
  ghost predicate GoodPiece(nm: Distance, track: seq<Fix>, a: nat, b: nat) {
    && a <= b < |track| && track[b].time - track[a].time >= MIN_FIX_RUN
    && forall m: nat :: a <= m < b ==> !JumpAfter(nm, track, m)
  }

  ghost predicate InGoodPiece(nm: Distance, track: seq<Fix>, k: nat) {
    exists a: nat, b: nat :: a <= k <= b && GoodPiece(nm, track, a, b)
  }

  /** `places` lists exactly the places of good pieces, in order. */
  ghost predicate KeepsGoodPieces(nm: Distance, track: seq<Fix>, kept: seq<Fix>, places: seq<int>) {
    && |places| == |kept| && Increasing(places)
    && (forall m :: 0 <= m < |places| ==> 0 <= places[m] < |track| && kept[m] == track[places[m]])
    && (forall k: nat :: k < |track| ==> (k in places <==> InGoodPiece(nm, track, k)))
  }

  /** A piece cannot reach over the jump into the last run. */
  lemma PieceOnOneSide(nm: Distance, init: seq<Fix>, last: seq<Fix>, a: nat, b: nat)
    requires init != [] && last != [] && Jump(nm, init[|init| - 1], last[0])
    requires GoodPiece(nm, init + last, a, b)
    ensures b < |init| || a >= |init|
  {
    assert JumpAfter(nm, init + last, |init| - 1);
  }

  lemma EarlierPieces(nm: Distance, init: seq<Fix>, last: seq<Fix>, k: nat)
    requires k < |init| && last != [] && Jump(nm, init[|init| - 1], last[0])
    ensures InGoodPiece(nm, init + last, k) <==> InGoodPiece(nm, init, k)
  {
    var track := init + last;
    if InGoodPiece(nm, track, k) {
      var a: nat, b: nat :| a <= k <= b && GoodPiece(nm, track, a, b);
      PieceOnOneSide(nm, init, last, a, b);
      assert forall m: nat :: a <= m < b ==> (JumpAfter(nm, init, m) <==> JumpAfter(nm, track, m));
      assert GoodPiece(nm, init, a, b);
    }
    if InGoodPiece(nm, init, k) {
      var a: nat, b: nat :| a <= k <= b && GoodPiece(nm, init, a, b);
      assert forall m: nat :: a <= m < b ==> (JumpAfter(nm, init, m) <==> JumpAfter(nm, track, m));
      assert GoodPiece(nm, track, a, b);
    }
  }

  lemma LastPiece(nm: Distance, init: seq<Fix>, last: seq<Fix>, k: nat)
    requires |init| <= k < |init| + |last| && JumpFree(nm, last) && Ascending(init + last, ByTime())
    requires init != [] ==> Jump(nm, init[|init| - 1], last[0])
    ensures InGoodPiece(nm, init + last, k) <==> LongRun(last)
  {
    if LongRun(last) {
      LongRunIsPiece(nm, init, last);
    }
    if InGoodPiece(nm, init + last, k) {
      var a: nat, b: nat :| a <= k <= b && GoodPiece(nm, init + last, a, b);
      if init != [] { PieceOnOneSide(nm, init, last, a, b); }
      PieceInLongRun(nm, init, last, a, b);
    }
  }

  lemma LongRunIsPiece(nm: Distance, init: seq<Fix>, last: seq<Fix>)
    requires LongRun(last) && JumpFree(nm, last)
    ensures GoodPiece(nm, init + last, |init|, |init| + |last| - 1)
  {
    hide Jump;
    var track, n := init + last, |init|;
    forall m: nat | n <= m < n + |last| - 1
      ensures !JumpAfter(nm, track, m)
    {
      assert !Jump(nm, last[m - n], last[m - n + 1]);
      assert track[m] == last[m - n] && track[m + 1] == last[m - n + 1];
    }
  }

  lemma PieceInLongRun(nm: Distance, init: seq<Fix>, last: seq<Fix>, a: nat, b: nat)
    requires GoodPiece(nm, init + last, a, b) && |init| <= a && Ascending(init + last, ByTime())
    ensures LongRun(last)
  {
    hide JumpAfter;
    var track, n := init + last, |init|;
    assert track[n] == last[0] && track[n + |last| - 1] == last[|last| - 1];
    assert ByTime()(track[n]) <= ByTime()(track[a]) && ByTime()(track[b]) <= ByTime()(track[n + |last| - 1]);
  }

  lemma {:induction false} LongRunsKeep(nm: Distance, track: seq<Fix>, runs: seq<seq<Fix>>) returns (places: seq<int>)
    requires IsRuns(nm, track, runs) && Ascending(track, ByTime())
    ensures KeepsGoodPieces(nm, track, Flatten(LongRuns(runs)), places)
    decreases |runs|
  {
    if runs == [] {
      places := [];
    } else {
      var n, last := |runs| - 1, runs[|runs| - 1];
      var init := Flatten(runs[..n]);
      DropLastRun(nm, track, runs);
      AscendingParts(init, last);
      var before := LongRunsKeep(nm, init, runs[..n]);
      FlattenEmpty(runs[..n]);
      if init != [] {
        StepIntoLastRun(nm, track, runs);
        assert track[|init| - 1] == init[|init| - 1] && track[|init|] == last[0];
      }
      places := AddLastRun(nm, init, last, Flatten(LongRuns(runs[..n])), before);
      LongRunsEnd(runs);
    }
  }

  lemma LongRunsEnd(runs: seq<seq<Fix>>)
    requires runs != []
    ensures var init, last := runs[..|runs| - 1], runs[|runs| - 1];
            Flatten(LongRuns(runs)) == Flatten(LongRuns(init)) + if LongRun(last) then last else []
  {
    var init, last := runs[..|runs| - 1], runs[|runs| - 1];
    if LongRun(last) {
      var long := LongRuns(init) + [last];
      assert LongRuns(runs) == long && long[..|long| - 1] == LongRuns(init);
    } else {
      assert LongRuns(runs) == LongRuns(init) + [] == LongRuns(init);
    }
  }

  lemma AddLastRun(nm: Distance, init: seq<Fix>, last: seq<Fix>, kept: seq<Fix>, before: seq<int>)
    returns (places: seq<int>)
    requires last != [] && JumpFree(nm, last) && Ascending(init + last, ByTime())
    requires init != [] ==> Jump(nm, init[|init| - 1], last[0])
    requires KeepsGoodPieces(nm, init, kept, before)
    ensures KeepsGoodPieces(nm, init + last, kept + if LongRun(last) then last else [], places)
  {
    hide InGoodPiece, JumpFree, Ascending, Jump;
    var n := |init|;
    var here: seq<int> := if LongRun(last) then seq(|last|, m => n + m) else [];
    places := before + here;
    assert forall i :: i in here <==> LongRun(last) && n <= i < n + |last| by {
      forall i | LongRun(last) && n <= i < n + |last|
        ensures i in here
      {
        assert here[i - n] == i;
      }
    }
    forall k: nat | k < n + |last|
      ensures k in places <==> InGoodPiece(nm, init + last, k)
    {
      if k < n { EarlierPieces(nm, init, last, k); } else { LastPiece(nm, init, last, k); }
    }
  }

  /** With no jump between successive points of the ordered track all of it is kept.
      Otherwise just the points of pieces of a minute or more without a jump are, in order. */
  lemma KeptPoints(nm: Distance, points: seq<Fix>, kept: seq<Fix>) returns (places: seq<int>)
    requires IsCleaned(nm, points, kept)
    ensures JumpFree(nm, Ordered(points)) ==> kept == Ordered(points)
    ensures !JumpFree(nm, Ordered(points)) ==> KeepsGoodPieces(nm, Ordered(points), kept, places)
  {
    hide Jump, Ordered;
    var track := Ordered(points);
    var runs :| IsRuns(nm, track, runs) && kept == if |runs| <= 1 then track else Flatten(LongRuns(runs));
    assert Ascending(track, ByTime()) by { OrderedAscends(points); }
    OneRunIffJumpFree(nm, track, runs);
    places := [];
    if |runs| > 1 {
      places := LongRunsKeep(nm, track, runs);
    }
  }

  lemma OrderedAscends(points: seq<Fix>)
    ensures Ascending(Ordered(points), ByTime())
  {
    SortAscending(NonZero(points), ByTime());
  }

  lemma OneRunIffJumpFree(nm: Distance, track: seq<Fix>, runs: seq<seq<Fix>>)
    requires IsRuns(nm, track, runs)
    ensures |runs| <= 1 <==> JumpFree(nm, track)
  {
    if |runs| > 1 {
      StepIntoLastRun(nm, track, runs);
      var r := |track| - |runs[|runs| - 1]|;
      assert Jump(nm, track[r - 1], track[r - 1 + 1]);
    } else if |runs| == 1 {
      assert runs[..0] == [] && Flatten(runs) == Flatten(runs[..0]) + runs[0] == runs[0];
    }
  }
}
