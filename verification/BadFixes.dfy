/** Dropping the bad fixes a GPS records while acquiring its signal:
    _drop_bad_fixes. Distances come from a function parameter, `nm`. */
module BadFixes {
  import opened Options
  import opened StableSort
  import Track

  datatype Fix = Fix(lat: real, lon: real, alt: real, speed: Option<real>, time: int)

  type Distance = (Fix, Fix) -> real

  const MAX_PLAUSIBLE_KT := 600.0
  const MIN_JUMP_NM := 0.5
  const MIN_FIX_RUN := 60 * Track.SECOND

  function ByTime(): Fix -> real {
    (p: Fix) => p.time as real
  }

  /** Both far and fast. */
  predicate Jump(nm: Distance, a: Fix, b: Fix) {
    var dt := (b.time - a.time) as real / Track.SECOND as real;
    nm(a, b) > MIN_JUMP_NM && (dt <= 0.0 || nm(a, b) * 3600.0 / dt > MAX_PLAUSIBLE_KT)
  }

  function NonZero(points: seq<Fix>): (kept: seq<Fix>)
    ensures forall p :: p in kept ==> !(p.lat == 0.0 && p.lon == 0.0)
  {
    if points == [] then []
    else (if points[0].lat == 0.0 && points[0].lon == 0.0 then [] else [points[0]]) + NonZero(points[1..])
  }

  function Ordered(points: seq<Fix>): seq<Fix> {
    SortBy(NonZero(points), ByTime())
  }

  function Flatten(runs: seq<seq<Fix>>): seq<Fix> {
    if runs == [] then [] else Flatten(runs[..|runs| - 1]) + runs[|runs| - 1]
  }

  predicate LongRun(run: seq<Fix>) {
    run != [] && run[|run| - 1].time - run[0].time >= MIN_FIX_RUN
  }

  function LongRuns(runs: seq<seq<Fix>>): (long: seq<seq<Fix>>)
    ensures forall r :: r in long <==> r in runs && LongRun(r)
  {
    if runs == [] then []
    else
      var last := runs[|runs| - 1];
      assert forall r :: r in runs <==> r in runs[..|runs| - 1] || r == last;
      LongRuns(runs[..|runs| - 1]) + if LongRun(last) then [last] else []
  }

  ghost predicate JumpFree(nm: Distance, run: seq<Fix>) {
    forall k :: 0 <= k < |run| - 1 ==> !Jump(nm, run[k], run[k + 1])
  }

  /** `runs` cuts the track at every implausible jump and nowhere else. */
  ghost predicate IsRuns(nm: Distance, track: seq<Fix>, runs: seq<seq<Fix>>) {
    && Flatten(runs) == track
    && (forall r :: 0 <= r < |runs| ==> runs[r] != [] && JumpFree(nm, runs[r]))
    && (forall r :: 0 <= r < |runs| - 1 ==> Jump(nm, runs[r][|runs[r]| - 1], runs[r + 1][0]))
  }

  /** The declarative result. */
  ghost predicate IsCleaned(nm: Distance, points: seq<Fix>, kept: seq<Fix>) {
    exists runs :: IsRuns(nm, Ordered(points), runs)
                   && kept == if |runs| <= 1 then Ordered(points) else Flatten(LongRuns(runs))
  }

  method DropBadFixes(points: seq<Fix>, nm: Distance) returns (kept: seq<Fix>)
    ensures IsCleaned(nm, points, kept)
  {
    var ordered := Ordered(points);
    var runs: seq<seq<Fix>> := [];
    for k := 0 to |ordered|
      invariant IsRuns(nm, ordered[..k], runs)
      invariant k > 0 ==> runs != []
    {
      assert ordered[..k + 1] == ordered[..k] + [ordered[k]];
      if runs != [] {
        var last := runs[|runs| - 1];
        if !Jump(nm, last[|last| - 1], ordered[k]) {
          Lengthen(nm, ordered[..k], runs, ordered[k]);
          runs := runs[|runs| - 1 := last + [ordered[k]]];
          continue;
        }
      }
      AddRun(nm, ordered[..k], runs, [ordered[k]]);
      runs := runs + [[ordered[k]]];
    }
    assert ordered[..|ordered|] == ordered;
    if |runs| <= 1 {
      return ordered;
    }
    kept := Flatten(LongRuns(runs));
  }

  lemma AddRun(nm: Distance, track: seq<Fix>, runs: seq<seq<Fix>>, run: seq<Fix>)
    requires IsRuns(nm, track, runs) && run != [] && JumpFree(nm, run)
    requires runs != [] ==> Jump(nm, runs[|runs| - 1][|runs[|runs| - 1]| - 1], run[0])
    ensures IsRuns(nm, track + run, runs + [run])
  {
    hide Jump, JumpFree;
    assert (runs + [run])[..|runs|] == runs;
  }

  lemma Lengthen(nm: Distance, track: seq<Fix>, runs: seq<seq<Fix>>, p: Fix)
    requires IsRuns(nm, track, runs) && runs != []
    requires var last := runs[|runs| - 1]; !Jump(nm, last[|last| - 1], p)
    ensures IsRuns(nm, track + [p], runs[|runs| - 1 := runs[|runs| - 1] + [p]])
  {
  }

  // ---------------------------------------------------------------- Facts

  /** Keeping some runs keeps a subsequence, so what was in order stays in order. */
  lemma {:induction false} LongRunsAscend(runs: seq<seq<Fix>>)
    requires Ascending(Flatten(runs), ByTime())
    ensures Ascending(Flatten(LongRuns(runs)), ByTime())
    ensures forall p :: p in Flatten(LongRuns(runs)) ==> p in Flatten(runs)
  {
    if runs != [] {
      var n := |runs| - 1;
      var before, last := Flatten(runs[..n]), runs[n];
      AscendingParts(before, last);
      LongRunsAscend(runs[..n]);
      var long := LongRuns(runs[..n]);
      if LongRun(last) {
        assert (long + [last])[..|long|] == long;
        AscendingConcat(Flatten(long), last);
      } else {
        assert long + [] == long;
      }
    }
  }

  lemma AscendingParts(a: seq<Fix>, b: seq<Fix>)
    requires Ascending(a + b, ByTime())
    ensures Ascending(a, ByTime()) && Ascending(b, ByTime())
    ensures forall p, q :: p in a && q in b ==> p.time <= q.time
  {
    var whole := a + b;
    assert forall i :: 0 <= i < |a| ==> whole[i] == a[i];
    assert forall j :: 0 <= j < |b| ==> whole[|a| + j] == b[j];
    forall p, q | p in a && q in b
      ensures p.time <= q.time
    {
      var i :| 0 <= i < |a| && a[i] == p;
      var j :| 0 <= j < |b| && b[j] == q;
      assert ByTime()(whole[i]) <= ByTime()(whole[|a| + j]);
    }
    forall i, j | 0 <= i <= j < |b|
      ensures ByTime()(b[i]) <= ByTime()(b[j])
    {
      assert ByTime()(whole[|a| + i]) <= ByTime()(whole[|a| + j]);
    }
  }

  lemma AscendingConcat(a: seq<Fix>, b: seq<Fix>)
    requires Ascending(a, ByTime()) && Ascending(b, ByTime())
    requires forall p, q :: p in a && q in b ==> p.time <= q.time
    ensures Ascending(a + b, ByTime())
  {
  }

  /** What is kept is in time order, has a position, and was recorded. */
  lemma CleanedIsOrdered(nm: Distance, points: seq<Fix>, kept: seq<Fix>)
    requires IsCleaned(nm, points, kept)
    ensures Ascending(kept, ByTime())
    ensures forall p :: p in kept ==> p in NonZero(points)
  {
    var runs :| IsRuns(nm, Ordered(points), runs)
                && kept == if |runs| <= 1 then Ordered(points) else Flatten(LongRuns(runs));
    SortAscending(NonZero(points), ByTime());
    SortPermutes(NonZero(points), ByTime());
    LongRunsAscend(runs);
  }

  lemma {:induction false} FlattenEmpty(runs: seq<seq<Fix>>)
    requires forall k :: 0 <= k < |runs| ==> runs[k] != []
    ensures Flatten(runs) == [] <==> runs == []
  {
  }

  /** The step into the last run of a track is a jump. */
  lemma StepIntoLastRun(nm: Distance, track: seq<Fix>, runs: seq<seq<Fix>>)
    requires IsRuns(nm, track, runs) && |runs| >= 2
    ensures var r := |runs[|runs| - 1]|; 0 < r < |track| && Jump(nm, track[|track| - r - 1], track[|track| - r])
  {
    hide Jump;
    var n := |runs| - 1;
    var init, before := runs[..n], runs[n - 1];
    assert init[n - 1] == before && runs[n] != [] && before != [];
    assert Flatten(runs) == Flatten(init) + runs[n];
    assert Flatten(init) == Flatten(init[..n - 1]) + before;
    assert Jump(nm, runs[n - 1][|runs[n - 1]| - 1], runs[n][0]);
  }

  lemma NoJumpInside(nm: Distance, before: seq<Fix>, piece: seq<Fix>, k: nat)
    requires JumpFree(nm, piece) && k + 1 < |piece|
    ensures !Jump(nm, (before + piece)[|before| + k], (before + piece)[|before| + k + 1])
  {
  }

  /** The last run of a track reaches back at least over its last jump-free piece. */
  lemma LastRunCovers(nm: Distance, track: seq<Fix>, runs: seq<seq<Fix>>, before: seq<Fix>, piece: seq<Fix>)
    requires IsRuns(nm, track, runs) && track == before + piece && piece != [] && JumpFree(nm, piece)
    ensures runs != [] && |runs[|runs| - 1]| >= |piece|
    ensures var r := runs[|runs| - 1]; r[|r| - |piece|..] == piece
  {
    hide Jump, JumpFree;
    FlattenEmpty(runs);
    var n := |runs| - 1;
    var r := runs[n];
    if n > 0 {
      StepIntoLastRun(nm, track, runs);
      if |r| < |piece| {
        NoJumpInside(nm, before, piece, |piece| - |r| - 1);
      }
    } else {
      assert Flatten(runs) == r by { assert runs[..0] == []; }
    }
    assert track == Flatten(runs[..n]) + r;
    assert r[|r| - |piece|..] == track[|track| - |piece|..] == piece;
  }

  lemma CancelEnd(a: seq<Fix>, b: seq<Fix>, end: seq<Fix>)
    requires a + end == b + end
    ensures a == b
  {
    assert a == (a + end)[..|a + end| - |end|];
    assert b == (b + end)[..|b + end| - |end|];
  }

  lemma DropLastRun(nm: Distance, track: seq<Fix>, runs: seq<seq<Fix>>)
    requires IsRuns(nm, track, runs) && runs != []
    ensures var n := |runs| - 1;
            && IsRuns(nm, Flatten(runs[..n]), runs[..n]) && track == Flatten(runs[..n]) + runs[n]
            && runs[n] != [] && JumpFree(nm, runs[n])
            && (n > 0 ==> runs[n - 1] != [] && Jump(nm, runs[n - 1][|runs[n - 1]| - 1], runs[n][0]))
  {
    hide Jump, JumpFree;
    assert forall r :: 0 <= r < |runs| - 1 ==> runs[..|runs| - 1][r] == runs[r];
  }

  lemma PrefixJumpFree(nm: Distance, run: seq<Fix>, n: nat)
    requires JumpFree(nm, run) && n <= |run|
    ensures JumpFree(nm, run[..n])
  {
  }

  /** Cutting the end of the last run off leaves the runs of the shorter track. */
  lemma Shorten(nm: Distance, track: seq<Fix>, runs: seq<seq<Fix>>, before: seq<Fix>, piece: seq<Fix>)
    returns (shorter: seq<seq<Fix>>)
    requires IsRuns(nm, track, runs) && track == before + piece && runs != []
    requires var r := runs[|runs| - 1]; |r| >= |piece| && r[|r| - |piece|..] == piece
    ensures IsRuns(nm, before, shorter)
    ensures runs[..|runs| - 1] <= shorter
  {
    hide Jump, JumpFree, IsRuns;
    DropLastRun(nm, track, runs);
    var n := |runs| - 1;
    var r := runs[n];
    var rest := r[..|r| - |piece|];
    assert before == Flatten(runs[..n]) + rest by {
      assert r == rest + piece && track == (Flatten(runs[..n]) + rest) + piece;
      CancelEnd(before, Flatten(runs[..n]) + rest, piece);
    }
    if rest == [] {
      assert before == Flatten(runs[..n]);
      shorter := runs[..n];
    } else {
      PrefixJumpFree(nm, r, |rest|);
      assert runs[..n] != [] ==> runs[..n][n - 1] == runs[n - 1];
      AddRun(nm, Flatten(runs[..n]), runs[..n], rest);
      shorter := runs[..n] + [rest];
    }
  }

  /** However a track of long jump-free pieces is cut, its runs are long. */
  lemma {:induction false} PiecesMakeLongRuns(nm: Distance, pieces: seq<seq<Fix>>, runs: seq<seq<Fix>>)
    requires IsRuns(nm, Flatten(pieces), runs) && Ascending(Flatten(pieces), ByTime())
    requires forall l :: l in pieces ==> LongRun(l) && JumpFree(nm, l)
    ensures forall k :: 0 <= k < |runs| ==> LongRun(runs[k])
    decreases |pieces|
  {
    hide JumpFree;
    FlattenEmpty(runs);
    if pieces != [] {
      var n := |pieces| - 1;
      var before, piece := Flatten(pieces[..n]), pieces[n];
      assert piece in pieces;
      LastRunCovers(nm, before + piece, runs, before, piece);
      var shorter := Shorten(nm, before + piece, runs, before, piece);
      AscendingParts(before, piece);
      PiecesMakeLongRuns(nm, pieces[..n], shorter);
      assert forall k :: 0 <= k < |runs| - 1 ==> runs[k] == runs[..|runs| - 1][k] == shorter[k];
      LastRunLong(runs, piece);
    }
  }

  /** In time order, a run that ends with a long piece is long. */
  lemma LastRunLong(runs: seq<seq<Fix>>, piece: seq<Fix>)
    requires runs != [] && LongRun(piece) && Ascending(Flatten(runs), ByTime())
    requires var r := runs[|runs| - 1]; |r| >= |piece| && r[|r| - |piece|..] == piece
    ensures LongRun(runs[|runs| - 1])
  {
    var r := runs[|runs| - 1];
    AscendingParts(Flatten(runs[..|runs| - 1]), r);
    assert r[|r| - |piece|] == piece[0] && r[|r| - 1] == piece[|piece| - 1];
    assert ByTime()(r[0]) <= ByTime()(r[|r| - |piece|]);
  }

  lemma LongRunsJumpFree(nm: Distance, track: seq<Fix>, runs: seq<seq<Fix>>)
    requires IsRuns(nm, track, runs)
    ensures forall l :: l in LongRuns(runs) ==> LongRun(l) && JumpFree(nm, l)
  {
  }

  lemma {:induction false} AllLongKept(runs: seq<seq<Fix>>)
    requires forall k :: 0 <= k < |runs| ==> LongRun(runs[k])
    ensures LongRuns(runs) == runs
  {
    hide LongRun;
    if runs != [] {
      var init, last := runs[..|runs| - 1], runs[|runs| - 1];
      AllLongKept(init);
      assert LongRun(last) && LongRuns(runs) == LongRuns(init) + [last];
      hide LongRuns;
      assert runs == init + [last];
    }
  }

  lemma {:induction false} NothingZero(points: seq<Fix>)
    requires forall p :: p in points ==> !(p.lat == 0.0 && p.lon == 0.0)
    ensures NonZero(points) == points
  {
    if points != [] {
      assert points[0] in points;
      NothingZero(points[1..]);
    }
  }

  /** Cleaning a cleaned track drops nothing more. */
  lemma CleaningIdempotent(nm: Distance, points: seq<Fix>, kept: seq<Fix>, again: seq<Fix>)
    requires IsCleaned(nm, points, kept) && IsCleaned(nm, kept, again)
    ensures again == kept
  {
    CleanedIsOrdered(nm, points, kept);
    NothingZero(kept);
    SortedStays(kept, ByTime());
    assert Ordered(kept) == kept;
    var runs :| IsRuns(nm, Ordered(points), runs)
                && kept == if |runs| <= 1 then Ordered(points) else Flatten(LongRuns(runs));
    var runs' :| IsRuns(nm, kept, runs')
                 && again == if |runs'| <= 1 then kept else Flatten(LongRuns(runs'));
    if |runs| <= 1 {
      RunsUnique(nm, kept, runs, runs');
    } else {
      LongRunsJumpFree(nm, Ordered(points), runs);
      PiecesMakeLongRuns(nm, LongRuns(runs), runs');
      AllLongKept(runs');
    }
  }

  /** A track has one list of runs. */
  lemma {:induction false} RunsUnique(nm: Distance, track: seq<Fix>, a: seq<seq<Fix>>, b: seq<seq<Fix>>)
    requires IsRuns(nm, track, a) && IsRuns(nm, track, b)
    ensures a == b
    decreases |track|
  {
    hide Jump, JumpFree;
    FlattenEmpty(a);
    FlattenEmpty(b);
    if a != [] {
      var n := |a| - 1;
      var before, last := Flatten(a[..n]), a[n];
      assert last != [];
      LastRunCovers(nm, track, b, before, last);
      var m := |b| - 1;
      LastRunCovers(nm, track, a, Flatten(b[..m]), b[m]);
      assert b[m] == last;
      assert Flatten(b[..m]) == before by {
        assert track == before + last && track == Flatten(b[..m]) + last;
        assert before == track[..|track| - |last|];
      }
      RunsUnique(nm, before, a[..n], b[..m]);
      assert a == a[..n] + [last] && b == b[..m] + [last];
    }
  }

  /** The declarative result determines what is kept. */
  lemma CleanedUnique(nm: Distance, points: seq<Fix>, kept: seq<Fix>, other: seq<Fix>)
    requires IsCleaned(nm, points, kept) && IsCleaned(nm, points, other)
    ensures kept == other
  {
    var runs :| IsRuns(nm, Ordered(points), runs)
                && kept == if |runs| <= 1 then Ordered(points) else Flatten(LongRuns(runs));
    var runs' :| IsRuns(nm, Ordered(points), runs')
                 && other == if |runs'| <= 1 then Ordered(points) else Flatten(LongRuns(runs'));
    RunsUnique(nm, Ordered(points), runs, runs');
  }
}
