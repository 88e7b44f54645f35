/** Facts about sequences and sets of integers used by several modules. */
module Sequences {

  ghost predicate Increasing(a: seq<int>) {
    forall i, j :: 0 <= i < j < |a| ==> a[i] < a[j]
  }

  lemma TailMembers(a: seq<int>)
    requires Increasing(a) && |a| > 0
    ensures Increasing(a[1..]) && forall x :: x in a[1..] <==> x in a && x != a[0]
  {
  }

  /** The first element of an increasing listing is its least. */
  lemma FirstIsLeast(a: seq<int>, x: int)
    requires Increasing(a) && x in a
    ensures |a| > 0 && a[0] in a && a[0] <= x
  {
  }

  /** A finite set of integers has one increasing listing. */
  lemma {:induction false} IncreasingUnique(a: seq<int>, b: seq<int>)
    requires Increasing(a) && Increasing(b)
    requires forall x :: x in a <==> x in b
    ensures a == b
  {
    hide Increasing;
    if |a| > 0 {
      var x := a[0];
      assert x in a;
      FirstIsLeast(b, x);
      var y := b[0];
      assert y in b;
      FirstIsLeast(a, y);
      TailMembers(a);
      TailMembers(b);
      IncreasingUnique(a[1..], b[1..]);
      assert a == [a[0]] + a[1..] && b == [b[0]] + b[1..];
    } else if |b| > 0 {
      var y := b[0];
      assert y in b;
      FirstIsLeast(a, y);
    }
  }

  /** A set with no member is empty, and any other has one. */
  lemma SomeMember(s: set<int>)
    ensures s != {} <==> exists x :: x in s
  {
    if forall x :: x !in s {
      assert s == {};
    }
  }

  /** Numbers below n: n of them are all of them. */
  lemma {:induction false} CountRange(n: nat, keys: set<int>)
    requires forall k :: k in keys ==> 0 <= k < n
    ensures |keys| <= n
    ensures |keys| == n <==> forall k :: 0 <= k < n ==> k in keys
  {
    if n == 0 {
      SomeMember(keys);
    } else {
      var fewer := keys - {n - 1};
      CountRange(n - 1, fewer);
      assert forall k :: 0 <= k < n - 1 ==> (k in keys <==> k in fewer);
      assert |keys| == |fewer| + if n - 1 in keys then 1 else 0;
    }
  }
}
