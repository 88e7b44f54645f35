/** Python's sorted(..., key=...): ascending by key, equal keys left in their
    original order. */
module StableSort {

  function Insert<T>(x: T, s: seq<T>, key: T -> real): seq<T> {
    if s == [] || key(x) <= key(s[0]) then [x] + s else [s[0]] + Insert(x, s[1..], key)
  }

  function SortBy<T>(s: seq<T>, key: T -> real): seq<T> {
    if s == [] then [] else Insert(s[0], SortBy(s[1..], key), key)
  }

  ghost predicate Ascending<T>(s: seq<T>, key: T -> real) {
    forall i, j :: 0 <= i <= j < |s| ==> key(s[i]) <= key(s[j])
  }

  /** The elements with key v, in order. */
  ghost function WithKey<T>(s: seq<T>, key: T -> real, v: real): seq<T> {
    if s == [] then []
    else (if key(s[0]) == v then [s[0]] else []) + WithKey(s[1..], key, v)
  }

  predicate Before<T>(x: T, y: T, second: T -> real, first: T -> real) {
    second(x) < second(y) || (second(x) == second(y) && first(x) <= first(y))
  }

  /** `second` ascends, and where it is equal `first` ascends. */
  ghost predicate Lexicographic<T>(s: seq<T>, second: T -> real, first: T -> real) {
    forall i, j :: 0 <= i <= j < |s| ==> Before(s[i], s[j], second, first)
  }

  lemma {:induction false} InsertPermutes<T>(x: T, s: seq<T>, key: T -> real)
    ensures multiset(Insert(x, s, key)) == multiset([x] + s)
  {
    if s != [] && key(x) > key(s[0]) {
      InsertPermutes(x, s[1..], key);
      assert s == [s[0]] + s[1..];
    }
  }

  lemma {:induction false} SortPermutes<T>(s: seq<T>, key: T -> real)
    ensures multiset(SortBy(s, key)) == multiset(s)
    ensures |SortBy(s, key)| == |s| && forall x :: x in SortBy(s, key) <==> x in s
  {
    if s != [] {
      SortPermutes(s[1..], key);
      InsertPermutes(s[0], SortBy(s[1..], key), key);
      assert s == [s[0]] + s[1..];
    }
    assert |multiset(SortBy(s, key))| == |multiset(s)|;
    forall x
      ensures x in SortBy(s, key) <==> x in s
    {
      assert x in multiset(SortBy(s, key)) <==> x in multiset(s);
    }
  }

  lemma InsertMembers<T>(x: T, s: seq<T>, key: T -> real)
    ensures forall y :: y in Insert(x, s, key) ==> y == x || y in s
  {
  }

  lemma PrependAscending<T>(head: T, tail: seq<T>, key: T -> real)
    requires Ascending(tail, key) && forall y :: y in tail ==> key(head) <= key(y)
    ensures Ascending([head] + tail, key)
  {
  }

  lemma HeadIsLeast<T>(s: seq<T>, key: T -> real)
    requires Ascending(s, key) && s != []
    ensures Ascending(s[1..], key) && forall y :: y in s ==> key(s[0]) <= key(y)
  {
  }

  lemma {:induction false} InsertAscending<T>(x: T, s: seq<T>, key: T -> real)
    requires Ascending(s, key)
    ensures Ascending(Insert(x, s, key), key)
  {
    if s == [] {
    } else if key(x) <= key(s[0]) {
      HeadIsLeast(s, key);
      PrependAscending(x, s, key);
    } else {
      HeadIsLeast(s, key);
      InsertAscending(x, s[1..], key);
      InsertMembers(x, s[1..], key);
      PrependAscending(s[0], Insert(x, s[1..], key), key);
    }
  }

  lemma {:induction false} SortAscending<T>(s: seq<T>, key: T -> real)
    ensures Ascending(SortBy(s, key), key)
  {
    if s != [] {
      SortAscending(s[1..], key);
      InsertAscending(s[0], SortBy(s[1..], key), key);
    }
  }

  lemma {:induction false} InsertStable<T>(x: T, s: seq<T>, key: T -> real, v: real)
    ensures WithKey(Insert(x, s, key), key, v) == WithKey([x] + s, key, v)
  {
    if s != [] && key(x) > key(s[0]) {
      InsertStable(x, s[1..], key, v);
    }
  }

  /** Sorting never reorders equals. */
  lemma {:induction false} SortStable<T>(s: seq<T>, key: T -> real, v: real)
    ensures WithKey(SortBy(s, key), key, v) == WithKey(s, key, v)
  {
    if s != [] {
      SortStable(s[1..], key, v);
      InsertStable(s[0], SortBy(s[1..], key), key, v);
    }
  }

  lemma {:induction false} SortedStays<T>(s: seq<T>, key: T -> real)
    requires Ascending(s, key)
    ensures SortBy(s, key) == s
  {
    if s != [] {
      SortedStays(s[1..], key);
    }
  }

  lemma PrependLexicographic<T>(head: T, tail: seq<T>, second: T -> real, first: T -> real)
    requires Lexicographic(tail, second, first) && forall y :: y in tail ==> Before(head, y, second, first)
    ensures Lexicographic([head] + tail, second, first)
  {
  }

  lemma HeadIsFirst<T>(s: seq<T>, second: T -> real, first: T -> real)
    requires Lexicographic(s, second, first) && s != []
    ensures Lexicographic(s[1..], second, first) && forall y :: y in s ==> Before(s[0], y, second, first)
  {
  }

  lemma {:induction false} InsertLexicographic<T>(x: T, s: seq<T>, second: T -> real, first: T -> real)
    requires Lexicographic(s, second, first) && forall y :: y in s ==> first(x) <= first(y)
    ensures Lexicographic(Insert(x, s, second), second, first)
  {
    if s == [] {
    } else if second(x) <= second(s[0]) {
      HeadIsFirst(s, second, first);
      PrependLexicographic(x, s, second, first);
    } else {
      HeadIsFirst(s, second, first);
      InsertLexicographic(x, s[1..], second, first);
      InsertMembers(x, s[1..], second);
      PrependLexicographic(s[0], Insert(x, s[1..], second), second, first);
    }
  }

  lemma SortMembers<T>(s: seq<T>, key: T -> real)
    ensures forall y :: y in SortBy(s, key) ==> y in s
  {
    SortPermutes(s, key);
    forall y | y in SortBy(s, key)
      ensures y in s
    {
      assert y in multiset(SortBy(s, key));
    }
  }

  lemma TailAfterHead<T>(s: seq<T>, key: T -> real)
    requires Ascending(s, key) && s != []
    ensures forall y :: y in s[1..] ==> key(s[0]) <= key(y)
  {
  }

  /** Sorting by one key and then stably by another orders by both. */
  lemma {:induction false} SortTwice<T>(s: seq<T>, second: T -> real, first: T -> real)
    requires Ascending(s, first)
    ensures Lexicographic(SortBy(s, second), second, first)
  {
    if s != [] {
      HeadIsLeast(s, first);
      SortTwice(s[1..], second, first);
      SortMembers(s[1..], second);
      TailAfterHead(s, first);
      InsertLexicographic(s[0], SortBy(s[1..], second), second, first);
    }
  }

  // ---------------------------------------------------------------- Where each element comes from

  /** `from` sends each place of the sorted sequence to a place of s, ascending by key
      and, where keys are equal, by place. */
  ghost predicate ComesFrom<T>(s: seq<T>, key: T -> real, sorted: seq<T>, from: seq<int>) {
    && |from| == |sorted| == |s|
    && (forall k :: 0 <= k < |from| ==> 0 <= from[k] < |s| && sorted[k] == s[from[k]])
    && (forall i, j :: 0 <= i < j < |from| ==>
          key(s[from[i]]) < key(s[from[j]]) || (key(s[from[i]]) == key(s[from[j]]) && from[i] < from[j]))
  }

  lemma {:induction false} InsertPlace<T>(x: T, s: seq<T>, key: T -> real) returns (p: nat)
    requires Ascending(s, key)
    ensures p <= |s| && Insert(x, s, key) == s[..p] + [x] + s[p..]
    ensures forall k :: 0 <= k < p ==> key(s[k]) < key(x)
    ensures forall k :: p <= k < |s| ==> key(x) <= key(s[k])
  {
    if s == [] || key(x) <= key(s[0]) {
      p := 0;
      assert s[..0] + [x] + s[0..] == [x] + s;
    } else {
      HeadIsLeast(s, key);
      var q := InsertPlace(x, s[1..], key);
      p := q + 1;
      assert s[..p] == [s[0]] + s[1..][..q] && s[p..] == s[1..][q..];
    }
  }

  /** A stable sort, without reference to how it is computed. */
  lemma {:induction false} SortComesFrom<T>(s: seq<T>, key: T -> real) returns (from: seq<int>)
    ensures ComesFrom(s, key, SortBy(s, key), from)
  {
    if s == [] {
      from := [];
    } else {
      var rest := SortComesFrom(s[1..], key);
      SortAscending(s[1..], key);
      var p := InsertPlace(s[0], SortBy(s[1..], key), key);
      from := Shifted(rest[..p]) + [0] + Shifted(rest[p..]);
      InsertComesFrom(s, key, SortBy(s[1..], key), rest, p);
    }
  }

  /** One place further each. */
  ghost function Shifted(from: seq<int>): (to: seq<int>)
    ensures |to| == |from| && forall k :: 0 <= k < |from| ==> to[k] == from[k] + 1
  {
    seq(|from|, k requires 0 <= k < |from| => from[k] + 1)
  }

  lemma InsertComesFrom<T>(s: seq<T>, key: T -> real, tail: seq<T>, rest: seq<int>, p: nat)
    requires s != [] && ComesFrom(s[1..], key, tail, rest) && p <= |tail|
    requires forall k :: 0 <= k < p ==> key(tail[k]) < key(s[0])
    requires forall k :: p <= k < |tail| ==> key(s[0]) <= key(tail[k])
    ensures ComesFrom(s, key, tail[..p] + [s[0]] + tail[p..], Shifted(rest[..p]) + [0] + Shifted(rest[p..]))
  {
    var sorted, from := tail[..p] + [s[0]] + tail[p..], Shifted(rest[..p]) + [0] + Shifted(rest[p..]);
    forall k | 0 <= k < |s|
      ensures k < p ==> sorted[k] == tail[k] && from[k] == rest[k] + 1
      ensures k > p ==> sorted[k] == tail[k - 1] && from[k] == rest[k - 1] + 1
      ensures 0 <= from[k] < |s| && sorted[k] == s[from[k]]
    {
      var m := if k < p then k else k - 1;
      if k != p {
        assert 0 <= rest[m] < |s| - 1 && tail[m] == s[1..][rest[m]];
      }
    }
    forall i, j | 0 <= i < j < |s|
      ensures key(sorted[i]) < key(sorted[j]) || (key(sorted[i]) == key(sorted[j]) && from[i] < from[j])
    {
      var a, b := if i < p then i else i - 1, if j < p then j else j - 1;
      if i != p && j != p {
        assert s[1..][rest[a]] == s[from[i]] && s[1..][rest[b]] == s[from[j]];
      }
    }
  }
}
