/** Thinning a track for storage: downsample_track. */
module Downsample {
  import opened Rounding
  import opened Sequences

  const MAX_TRACK_POINTS := 500

  /** The i-th stride index: round(i * n / max). */
  function Stride(n: nat, max: nat, i: nat): int
    requires max > 0
  {
    RoundHalfEven(i * n, max)
  }

  function Strides(n: nat, max: nat): seq<int>
    requires max > 0
  {
    seq(max, i requires 0 <= i => Stride(n, max, i))
  }

  /** The indices kept of a track of n > max points, in order. */
  function Kept(n: nat, max: nat): seq<int>
    requires max > 0
  {
    Strides(n, max) + if Stride(n, max, max - 1) == n - 1 then [] else [n - 1]
  }

  lemma TimesOrdered(a: int, b: int, max: int)
    requires max > 0
    ensures (b - a) * max == b * max - a * max
    ensures b <= a ==> b * max <= a * max
  {
  }

  /** Successive stride indices differ by at least one and at most stride + 1. */
  lemma StrideStep(n: nat, max: nat, i: nat)
    requires 0 < max < n
    ensures Stride(n, max, i) < Stride(n, max, i + 1)
    ensures (Stride(n, max, i + 1) - Stride(n, max, i)) * max <= n + max
  {
    var a, b := Stride(n, max, i), Stride(n, max, i + 1);
    assert (i + 1) * n == i * n + n;
    TimesOrdered(a, b, max);
  }

  lemma {:induction false} StridesIncrease(n: nat, max: nat, i: nat, j: nat)
    requires 0 < max < n && i < j
    ensures Stride(n, max, i) < Stride(n, max, j)
    decreases j
  {
    StrideStep(n, max, j - 1);
    if i < j - 1 {
      StridesIncrease(n, max, i, j - 1);
    }
  }

  lemma StrideEnds(n: nat, max: nat)
    requires 0 < max < n
    ensures Stride(n, max, 0) == 0 && Stride(n, max, max - 1) <= n - 1
    ensures (n - 1 - Stride(n, max, max - 1)) * max <= n + max
  {
    RoundUnique(0, max, 0);
    var s := Stride(n, max, max - 1);
    assert (max - 1) * n == n * max - n;
    assert (n - 1 - s) * max == n * max - max - s * max;
    TimesOrdered(s, n, max);
  }

  lemma KeptIncreases(n: nat, max: nat, i: nat, j: nat)
    requires 0 < max < n && i < j < |Kept(n, max)|
    ensures Kept(n, max)[i] < Kept(n, max)[j]
  {
    if j < max {
      StridesIncrease(n, max, i, j);
    } else {
      StrideEnds(n, max);
      if i < max - 1 { StridesIncrease(n, max, i, max - 1); }
    }
  }

  lemma KeptGap(n: nat, max: nat, j: nat)
    requires 0 < max < n && j + 1 < |Kept(n, max)|
    ensures (Kept(n, max)[j + 1] - Kept(n, max)[j]) * max <= n + max
  {
    if j + 1 < max {
      StrideStep(n, max, j);
    } else {
      StrideEnds(n, max);
    }
  }

  /** The kept indices are distinct, in order, from 0 to n - 1, and no two
      neighbours are more than stride + 1 apart. */
  lemma KeptIndices(n: nat, max: nat)
    requires 0 < max < n
    ensures var ks := Kept(n, max);
            && Increasing(ks) && ks[0] == 0 && ks[|ks| - 1] == n - 1
            && (forall j :: 0 <= j < |ks| ==> 0 <= ks[j] < n)
            && (forall j :: 0 <= j < |ks| - 1 ==> (ks[j + 1] - ks[j]) * max <= n + max)
  {
    StrideEnds(n, max);
    forall i, j | 0 <= i < j < |Kept(n, max)|
      ensures Kept(n, max)[i] < Kept(n, max)[j]
    {
      KeptIncreases(n, max, i, j);
    }
    forall j | 0 <= j < |Kept(n, max)| - 1
      ensures (Kept(n, max)[j + 1] - Kept(n, max)[j]) * max <= n + max
    {
      KeptGap(n, max, j);
    }
    IncreasingWithin(Kept(n, max));
  }

  lemma IncreasingWithin(ks: seq<int>)
    requires Increasing(ks) && |ks| > 0
    ensures forall j :: 0 <= j < |ks| ==> ks[0] <= ks[j] <= ks[|ks| - 1]
  {
  }

  /** The documentation promises at most max points. That holds exactly for
      tracks shorter than one and a half times max, or just that long and odd;
      any longer track keeps max + 1. */
  lemma KeptCount(n: nat, max: nat)
    requires 0 < max < n
    ensures |Kept(n, max)| == max || |Kept(n, max)| == max + 1
    ensures |Kept(n, max)| <= max <==> 2 * n < 3 * max || (2 * n == 3 * max && n % 2 == 1)
  {
    LastStrideIsEnd(n, max);
  }

  lemma LastStrideIsEnd(n: nat, max: nat)
    requires 0 < max < n
    ensures Stride(n, max, max - 1) == n - 1 <==> 2 * n < 3 * max || (2 * n == 3 * max && n % 2 == 1)
  {
    hide RoundHalfEven;
    OneLess(n, max);
    RoundIff((max - 1) * n, max, n - 1);
    NearTheEnd(2 * ((n - 1) * max - (max - 1) * n), n, max);
  }

  lemma NearTheEnd(twice: int, n: int, max: int)
    requires 0 < max < n && twice == 2 * n - 2 * max
    ensures -max < twice < max || ((twice == max || twice == -max) && (n - 1) % 2 == 0)
            <==> 2 * n < 3 * max || (2 * n == 3 * max && n % 2 == 1)
  {
  }

  lemma OneLess(n: nat, max: nat)
    ensures (n - 1) * max - (max - 1) * n == n - max
  {
  }

  /** A track of 1000 points is stored with 501, not the promised 500. */
  lemma OneTooMany()
    ensures |Kept(1000, MAX_TRACK_POINTS)| == 501
  {
  }

  method DownsampleTrack<T>(track: seq<T>, max: nat) returns (out: seq<T>)
    requires max > 0
    ensures |track| <= max ==> out == track
    ensures |track| > max ==>
              var ks := Kept(|track|, max);
              && |out| == |ks|
              && forall j :: 0 <= j < |ks| ==> 0 <= ks[j] < |track| && out[j] == track[ks[j]]
  {
    var n := |track|;
    if n <= max {
      return track;
    }
    var indices := (set i | 0 <= i < max :: Stride(n, max, i)) + {0} + {n - 1};
    ghost var picked: seq<int> := [];
    out := [];
    for i := 0 to n  // sorted(indices), those below n
      invariant Increasing(picked) && |out| == |picked|
      invariant forall k :: k in picked <==> 0 <= k < i && k in indices
      invariant forall j :: 0 <= j < |out| ==> 0 <= picked[j] < n && out[j] == track[picked[j]]
    {
      if i in indices {
        assert forall j :: 0 <= j < |picked| ==> picked[j] in picked;
        out, picked := out + [track[i]], picked + [i];
      }
    }
    KeptIndices(n, max);
    SameIndices(n, max, indices);
    IncreasingUnique(picked, Kept(n, max));
  }

  lemma SameIndices(n: nat, max: nat, indices: set<int>)
    requires 0 < max < n
    requires indices == (set i | 0 <= i < max :: Stride(n, max, i)) + {0} + {n - 1}
    ensures forall k :: k in Kept(n, max) <==> k in indices
  {
    StrideEnds(n, max);
    forall k | k in indices
      ensures k in Kept(n, max)
    {
      if k == n - 1 {
        assert Kept(n, max)[|Kept(n, max)| - 1] == n - 1 by { KeptIndices(n, max); }
      } else {
        var i :| 0 <= i < max && k == Stride(n, max, i);
        assert Kept(n, max)[i] == k;
      }
    }
    forall k | k in Kept(n, max)
      ensures k in indices
    {
      var j :| 0 <= j < |Kept(n, max)| && Kept(n, max)[j] == k;
    }
  }
}
