/** Migration chains as directed graphs: each revision points to its parents. */
module Chain {
  import opened Options

  type Rev = string

  /** {revision: parents}; None marks a root. */
  type Chain = map<Rev, Option<seq<Rev>>>

  /** Python's chain.get(rev) or []. */
  function Parents(chain: Chain, r: Rev): seq<Rev> {
    if r in chain && chain[r].Some? then chain[r].value else []
  }

  function Roots(chain: Chain): set<Rev> {
    set r | r in chain && chain[r].None?
  }

  function AllParents(chain: Chain): set<Rev> {
    set r, i | r in chain && 0 <= i < |Parents(chain, r)| :: Parents(chain, r)[i]
  }

  function Heads(chain: Chain): set<Rev> {
    set r | r in chain && r !in AllParents(chain)
  }

  ghost predicate Complete(chain: Chain) {
    forall r, p :: r in chain && p in Parents(chain, r) ==> p in chain
  }

  ghost predicate IsPath(chain: Chain, path: seq<Rev>) {
    && path != []
    && forall i :: 0 <= i < |path| - 1 ==> path[i + 1] in Parents(chain, path[i])
  }

  ghost predicate IsCycle(chain: Chain, path: seq<Rev>) {
    IsPath(chain, path) && |path| >= 2 && path[0] == path[|path| - 1]
  }

  ghost predicate Cyclic(chain: Chain) {
    exists path :: IsCycle(chain, path)
  }

  ghost predicate OnCycle(chain: Chain, r: Rev) {
    exists path :: IsCycle(chain, path) && path[0] == r
  }

  ghost predicate Reaches(chain: Chain, from: Rev, to: Rev) {
    exists path :: IsPath(chain, path) && path[0] == from && path[|path| - 1] == to
  }

  /** What the script promises: a complete acyclic graph with one root and one head. */
  ghost predicate ValidChain(chain: Chain) {
    Complete(chain) && |Roots(chain)| == 1 && |Heads(chain)| == 1 && !Cyclic(chain)
  }

  ghost predicate Distinct(path: seq<Rev>) {
    forall i, j :: 0 <= i < j < |path| ==> path[i] != path[j]
  }

  ghost predicate AllIn(path: seq<Rev>, s: set<Rev>) {
    forall r :: r in path ==> r in s
  }

  lemma {:induction false} DistinctBound(path: seq<Rev>, s: set<Rev>)
    requires Distinct(path) && AllIn(path, s)
    ensures |path| <= |s|
    decreases |path|
  {
    if path != [] {
      DistinctBound(path[1..], s - {path[0]});
    }
  }

  /** A path in a complete chain stays among its revisions. */
  lemma {:induction false} PathInside(chain: Chain, path: seq<Rev>, i: nat)
    requires Complete(chain) && IsPath(chain, path) && path[0] in chain && i < |path|
    ensures path[i] in chain
  {
    if i > 0 {
      PathInside(chain, path, i - 1);
    }
  }

  // ---------------------------------------------------------------- Reachability

  lemma ReachesSelf(chain: Chain, r: Rev)
    ensures Reaches(chain, r, r)
  {
    assert IsPath(chain, [r]);
  }

  lemma ReachesStep(chain: Chain, r: Rev, p: Rev, to: Rev)
    requires p in Parents(chain, r) && Reaches(chain, p, to)
    ensures Reaches(chain, r, to)
  {
    var path :| IsPath(chain, path) && path[0] == p && path[|path| - 1] == to;
    var longer := [r] + path;
    hide Reaches, Parents;
    forall i | 0 <= i < |longer| - 1
      ensures longer[i + 1] in Parents(chain, longer[i])
    {
      if i > 0 { assert path[i - 1 + 1] in Parents(chain, path[i - 1]); }
    }
    PathReaches(chain, longer);
  }

  lemma ReachesOn(chain: Chain, a: Rev, b: Rev, c: Rev)
    requires Reaches(chain, a, b) && Reaches(chain, b, c)
    ensures Reaches(chain, a, c)
  {
    var p :| IsPath(chain, p) && p[0] == a && p[|p| - 1] == b;
    var q :| IsPath(chain, q) && q[0] == b && q[|q| - 1] == c;
    var path := p + q[1..];
    hide Reaches, Parents;
    forall i | 0 <= i < |path| - 1
      ensures path[i + 1] in Parents(chain, path[i])
    {
      if i < |p| - 1 {
        assert p[i + 1] in Parents(chain, p[i]);
      } else {
        assert q[i + 1 - |p| + 1] in Parents(chain, q[i + 1 - |p|]);
      }
    }
    PathReaches(chain, path);
  }

  /** A set that holds the parents of its members holds all they reach. */
  lemma {:induction false} ClosedReaches(chain: Chain, s: set<Rev>, path: seq<Rev>, i: nat)
    requires forall r, p :: r in s && p in Parents(chain, r) ==> p in s
    requires IsPath(chain, path) && path[0] in s && i < |path|
    ensures path[i] in s
  {
    if i > 0 {
      ClosedReaches(chain, s, path, i - 1);
    }
  }

  // ---------------------------------------------------------------- The way to a cycle

  ghost predicate ReachesCycle(chain: Chain, r: Rev) {
    exists c :: Reaches(chain, r, c) && OnCycle(chain, c)
  }

  /** The parents listed before p. */
  function Earlier(parents: seq<Rev>, p: Rev): (before: seq<Rev>)
    ensures p !in before
    ensures forall q :: q in before ==> q in parents
  {
    if parents == [] || parents[0] == p then [] else [parents[0]] + Earlier(parents[1..], p)
  }

  /** The parents that a path passes over at its j-th revision. */
  function Passed(chain: Chain, path: seq<Rev>, j: nat): seq<Rev> {
    if j + 1 < |path| then Earlier(Parents(chain, path[j]), path[j + 1]) else []
  }

  /** The way from the head to the first cycle: it passes over no parent that reaches
      a cycle, and ends at the first revision that repeats. */
  ghost predicate IsLasso(chain: Chain, head: Rev, path: seq<Rev>) {
    && |path| >= 2 && IsPath(chain, path) && path[0] == head
    && Distinct(path[..|path| - 1]) && path[|path| - 1] in path[..|path| - 1]
    && forall j: nat, p :: p in Passed(chain, path, j) ==> !ReachesCycle(chain, p)
  }

  /** Reached by a parent that the path passes over. */
  ghost predicate Aside(chain: Chain, path: seq<Rev>, r: Rev) {
    exists j: nat, p :: p in Passed(chain, path, j) && Reaches(chain, p, r)
  }

  /** On the lasso, or reached by a parent that it passes over. */
  ghost predicate Seen(chain: Chain, lasso: seq<Rev>, r: Rev) {
    r in lasso || Aside(chain, lasso, r)
  }

  /** Every revision of a lasso reaches its cycle. */
  lemma LassoReachesCycle(chain: Chain, head: Rev, lasso: seq<Rev>, i: nat)
    requires IsLasso(chain, head, lasso) && i < |lasso|
    ensures OnCycle(chain, lasso[|lasso| - 1])
    ensures Reaches(chain, lasso[i], lasso[|lasso| - 1]) && ReachesCycle(chain, lasso[i])
  {
    hide Reaches;
    var n := |lasso| - 1;
    var k :| 0 <= k < n && lasso[k] == lasso[n];
    var cycle, rest := lasso[k..], lasso[i..];
    assert IsPath(chain, cycle) && IsPath(chain, rest);
    hide IsLasso, IsPath;
    assert IsCycle(chain, cycle) && cycle[0] == lasso[n];
    PathReaches(chain, rest);
  }

  /** Of two different listed parents one comes before the other. */
  lemma {:induction false} OneIsEarlier(parents: seq<Rev>, p: Rev, q: Rev)
    requires p in parents && q in parents && p != q
    ensures p in Earlier(parents, q) || q in Earlier(parents, p)
  {
    if parents[0] != p && parents[0] != q {
      OneIsEarlier(parents[1..], p, q);
    }
  }

  /** From one revision two lassos go on to the same parent. */
  lemma SameStep(chain: Chain, head: Rev, a: seq<Rev>, b: seq<Rev>, i: nat)
    requires IsLasso(chain, head, a) && IsLasso(chain, head, b) && i + 1 < |a| && i + 1 < |b| && a[i] == b[i]
    ensures a[i + 1] == b[i + 1]
  {
    hide Earlier, ReachesCycle, Reaches;
    var p, q := a[i + 1], b[i + 1];
    LassoReachesCycle(chain, head, a, i + 1);
    LassoReachesCycle(chain, head, b, i + 1);
    assert p in Parents(chain, a[i]) && q in Parents(chain, a[i]);
    assert Passed(chain, a, i) == Earlier(Parents(chain, a[i]), p);
    assert Passed(chain, b, i) == Earlier(Parents(chain, a[i]), q);
    if p != q {
      OneIsEarlier(Parents(chain, a[i]), p, q);
    }
  }

  lemma {:induction false} LassosAgree(chain: Chain, head: Rev, a: seq<Rev>, b: seq<Rev>, i: nat)
    requires IsLasso(chain, head, a) && IsLasso(chain, head, b) && i < |a| && i < |b|
    ensures a[..i + 1] == b[..i + 1]
  {
    hide Passed, ReachesCycle, IsPath, Distinct;
    if i > 0 {
      LassosAgree(chain, head, a, b, i - 1);
      assert a[i - 1] == a[..i][i - 1] && b[i - 1] == b[..i][i - 1];
      SameStep(chain, head, a, b, i - 1);
      assert a[..i + 1] == a[..i] + [a[i]] && b[..i + 1] == b[..i] + [b[i]];
    }
  }

  /** The head has one lasso at most. */
  lemma LassoUnique(chain: Chain, head: Rev, a: seq<Rev>, b: seq<Rev>)
    requires IsLasso(chain, head, a) && IsLasso(chain, head, b)
    ensures a == b
  {
    if |a| <= |b| {
      LassoNotLonger(chain, head, a, b);
    } else {
      LassoNotLonger(chain, head, b, a);
    }
  }

  lemma LassoNotLonger(chain: Chain, head: Rev, a: seq<Rev>, b: seq<Rev>)
    requires IsLasso(chain, head, a) && IsLasso(chain, head, b) && |a| <= |b|
    ensures a == b
  {
    var n := |a| - 1;
    LassosAgree(chain, head, a, b, n);
    assert a[..n + 1] == a;
    var k :| 0 <= k < n && a[k] == a[n];
    assert a[k] == b[k] && a[n] == b[n];
  }

  /** Everything seen from the head is reached by it. */
  lemma SeenIsReached(chain: Chain, head: Rev, lasso: seq<Rev>, r: Rev)
    requires IsLasso(chain, head, lasso) && Seen(chain, lasso, r)
    ensures Reaches(chain, head, r)
  {
    hide Reaches;
    if r in lasso {
      var i :| 0 <= i < |lasso| && lasso[i] == r;
      LassoReached(chain, head, lasso, i);
    } else {
      var j: nat, p :| p in Passed(chain, lasso, j) && Reaches(chain, p, r);
      hide IsLasso, ReachesCycle, IsPath;
      LassoReached(chain, head, lasso, j);
      assert p in Parents(chain, lasso[j]);
      ReachesStep(chain, lasso[j], p, r);
      ReachesOn(chain, head, lasso[j], r);
    }
  }

  lemma LassoReached(chain: Chain, head: Rev, lasso: seq<Rev>, i: nat)
    requires IsLasso(chain, head, lasso) && i < |lasso|
    ensures Reaches(chain, head, lasso[i])
  {
    PathReaches(chain, lasso[..i + 1]);
  }

  /** The head reaches something unseen exactly if some revision of the lasso has a
      parent, listed after the lasso's own, that is unseen. */
  lemma SeenIsAllReached(chain: Chain, head: Rev, lasso: seq<Rev>)
    requires IsLasso(chain, head, lasso)
    ensures (forall r :: Reaches(chain, head, r) ==> Seen(chain, lasso, r))
            <==> (forall r, p :: r in lasso && p in Parents(chain, r) ==> Seen(chain, lasso, p))
  {
    if forall r :: Reaches(chain, head, r) ==> Seen(chain, lasso, r) {
      forall r, p | r in lasso && p in Parents(chain, r)
        ensures Seen(chain, lasso, p)
      {
        SeenIsReached(chain, head, lasso, r);
        ReachesSelf(chain, p);
        ReachesStep(chain, r, p, p);
        ReachesOn(chain, head, r, p);
      }
    }
    if forall r, p :: r in lasso && p in Parents(chain, r) ==> Seen(chain, lasso, p) {
      forall r | Reaches(chain, head, r)
        ensures Seen(chain, lasso, r)
      {
        var path :| IsPath(chain, path) && path[0] == head && path[|path| - 1] == r;
        AllSeen(chain, lasso, path, |path| - 1);
      }
    }
  }

  lemma {:induction false} AllSeen(chain: Chain, lasso: seq<Rev>, path: seq<Rev>, i: nat)
    requires forall r, p :: r in lasso && p in Parents(chain, r) ==> Seen(chain, lasso, p)
    requires IsPath(chain, path) && path[0] in lasso && i < |path|
    ensures Seen(chain, lasso, path[i])
  {
    hide Reaches, Earlier, Parents;
    if i > 0 {
      AllSeen(chain, lasso, path, i - 1);
      var r, p := path[i - 1], path[i];
      if r !in lasso {
        var j: nat, q :| q in Passed(chain, lasso, j) && Reaches(chain, q, r);
        ReachesSelf(chain, p);
        ReachesStep(chain, r, p, p);
        ReachesOn(chain, q, r, p);
      }
    }
  }

  // ---------------------------------------------------------------- Orders

  /** Every revision is listed once, after all its parents. */
  ghost predicate ParentsFirst(chain: Chain, order: seq<Rev>) {
    && Distinct(order)
    && forall i, p :: 0 <= i < |order| && p in Parents(chain, order[i]) ==> p in order[..i]
  }

  /** Following parents only leads to earlier places in the order. */
  lemma {:induction false} PathDescends(chain: Chain, order: seq<Rev>, path: seq<Rev>, i: nat, k: nat) returns (j: nat)
    requires ParentsFirst(chain, order) && IsPath(chain, path) && k < |path|
    requires i < |order| && order[i] == path[0]
    ensures j + k <= i && order[j] == path[k]
  {
    if k == 0 {
      j := i;
    } else {
      var h := PathDescends(chain, order, path, i, k - 1);
      assert path[k] in order[..h];
      j :| 0 <= j < h && order[..h][j] == path[k];
    }
  }

  lemma NoCycleIn(chain: Chain, order: seq<Rev>, path: seq<Rev>)
    requires ParentsFirst(chain, order) && path != [] && path[0] in order
    ensures !IsCycle(chain, path)
  {
    if IsCycle(chain, path) {
      var i :| 0 <= i < |order| && order[i] == path[0];
      var j := PathDescends(chain, order, path, i, |path| - 1);
    }
  }

  // ---------------------------------------------------------------- Unique heads

  /** A revision that is not a head has a child. */
  lemma ChildOf(chain: Chain, r: Rev) returns (child: Rev)
    requires r in chain && r !in Heads(chain)
    ensures child in chain && r in Parents(chain, child)
  {
    var c, i :| c in chain && 0 <= i < |Parents(chain, c)| && Parents(chain, c)[i] == r;
    child := c;
  }

  /** Going up from a path never comes back to it, or there would be a cycle. */
  lemma StaysDistinct(chain: Chain, child: Rev, path: seq<Rev>)
    requires IsPath(chain, path) && Distinct(path) && path[0] in Parents(chain, child) && !Cyclic(chain)
    ensures IsPath(chain, [child] + path) && Distinct([child] + path)
  {
    var longer := [child] + path;
    assert IsPath(chain, longer);
    forall k | 0 <= k < |path|
      ensures path[k] != child
    {
      assert !IsCycle(chain, longer[..k + 2]);
    }
  }

  /** In a complete acyclic chain, the way up from any revision ends at the head. */
  lemma {:induction false} ClimbToHead(chain: Chain, head: Rev, path: seq<Rev>)
    requires !Cyclic(chain) && Heads(chain) == {head}
    requires IsPath(chain, path) && Distinct(path) && AllIn(path, chain.Keys)
    ensures Reaches(chain, head, path[|path| - 1])
    decreases |chain.Keys| - |path|
  {
    hide Cyclic, Distinct, Heads, Parents, Reaches;
    if path[0] == head {
      PathReaches(chain, path);
    } else {
      assert path[0] in path;
      var child := ChildOf(chain, path[0]);
      var longer := [child] + path;
      StaysDistinct(chain, child, path);
      DistinctBound(longer, chain.Keys);
      ClimbToHead(chain, head, longer);
    }
  }

  lemma PathReaches(chain: Chain, path: seq<Rev>)
    requires IsPath(chain, path)
    ensures Reaches(chain, path[0], path[|path| - 1])
  {
  }

  /** In a complete acyclic chain with one head, the head reaches every revision. */
  lemma HeadReachesAll(chain: Chain, head: Rev, r: Rev)
    requires Complete(chain) && !Cyclic(chain) && Heads(chain) == {head} && r in chain
    ensures Reaches(chain, head, r)
  {
    ClimbToHead(chain, head, [r]);
  }
}
