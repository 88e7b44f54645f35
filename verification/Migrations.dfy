/** The migration-chain check of scripts/check_migrations.py: _check_chain and
    its depth-first search. */
module Migrations {
  import opened Options
  import opened Chain

  datatype Error =
    | NoRoot
    | MultipleRoots(roots: set<Rev>)
    | NoHead
    | MultipleHeads(heads: set<Rev>)
    | MissingReference(rev: Rev, parent: Rev)
    | CycleAt(rev: Rev)
    | Orphans(orphans: set<Rev>)

  /** The variables that _dfs shares with the function around it. */
  class Walk {
    const chain: Chain
    const head: Rev
    var visited: set<Rev>
    var inProgress: set<Rev>
    var cycleFound: bool
    var errors: seq<Error>
    ghost var order: seq<Rev>  // visited, in order of completion
    ghost var lasso: seq<Rev>  // the way to the cycle, once one is found

    ghost predicate Valid()
      reads this
    {
      && Complete(chain)
      && visited <= chain.Keys && inProgress <= chain.Keys
      && (forall r :: r in visited ==> Reaches(chain, head, r))
      && (!cycleFound ==> errors == [] && visited !! inProgress)
      && (!cycleFound ==> ParentsFirst(chain, order) && forall r :: r in order <==> r in visited)
      && (cycleFound ==> IsLasso(chain, head, lasso) && errors == [CycleAt(lasso[|lasso| - 1])])
      && (cycleFound ==> forall r :: r in visited || r in inProgress <==> Seen(chain, lasso, r))
    }

    constructor (chain: Chain, head: Rev)
      requires Complete(chain)
      ensures Valid() && this.chain == chain && this.head == head
      ensures inProgress == {} && visited == {} && !cycleFound
    {
      this.chain, this.head := chain, head;
      visited, inProgress, cycleFound, errors, order, lasso := {}, {}, false, [], [], [];
    }

    /** `path` holds the revisions in progress, from the head down to rev's child;
        what is visited so far was reached through the parents it passes over. */
    method Dfs(rev: Rev, ghost path: seq<Rev>)
      requires Valid() && rev in chain
      requires IsPath(chain, path + [rev]) && (path + [rev])[0] == head && Distinct(path)
      requires forall r :: r in path <==> r in inProgress
      requires !cycleFound && rev !in visited ==> Explored(chain, path + [rev], visited)
      modifies this
      ensures Valid() && inProgress == old(inProgress) && old(visited) <= visited
      ensures old(cycleFound) ==> cycleFound
      ensures !cycleFound ==> rev in visited && forall r :: r in visited ==> r in old(visited) || Reaches(chain, rev, r)
      decreases chain.Keys - inProgress
    {
      hide IsPath, Reaches, OnCycle, ParentsFirst, IsLasso, Seen, Explored, Distinct, ReachedBy, Complete, Parents;
      if cycleFound {
        return;
      }
      if rev in inProgress {
        BackEdgeIsCycle(chain, head, path, rev, order, visited);
        errors := errors + [CycleAt(rev)];
        cycleFound := true;
        lasso := path + [rev];
        return;
      }
      if rev in visited {
        return;
      }
      inProgress := inProgress + {rev};
      var parents := Parents(chain, rev);
      ParentsKnown(chain, rev);
      AppendFresh(path, rev);
      NothingYet(chain, visited);
      for i := 0 to |parents|
        invariant Valid() && inProgress == old(inProgress) + {rev} && old(visited) <= visited
        invariant !cycleFound ==> forall k :: 0 <= k < i ==> parents[k] in visited
        invariant !cycleFound ==> ReachedBy(chain, old(visited), parents[..i], visited)
      {
        PathExtends(chain, path, rev, parents[i]);
        if !cycleFound && parents[i] !in visited {
          ExploredNext(chain, path + [rev], i, old(visited), visited);
        }
        ghost var before := visited;
        assert parents[i] in parents;
        Dfs(parents[i], path + [rev]);
        if !cycleFound {
          ReachedByNext(chain, old(visited), parents, i, before, visited);
        }
      }
      assert parents[..|parents|] == parents;
      PathReaches(chain, path + [rev]);
      if !cycleFound {
        RevisionDone(chain, order, rev);
        ReachedByRev(chain, rev, old(visited), visited);
      }
      inProgress := inProgress - {rev};
      visited := visited + {rev};
      order := order + [rev];
    }
  }

  /** The path passes over visited parents only, and they reach all that is visited. */
  ghost predicate Explored(chain: Chain, path: seq<Rev>, visited: set<Rev>) {
    && (forall j: nat, p :: p in Passed(chain, path, j) ==> p in visited)
    && forall r :: r in visited ==> Aside(chain, path, r)
  }

  /** What was visited since `before` is reached by one of `parents`. */
  ghost predicate ReachedBy(chain: Chain, before: set<Rev>, parents: seq<Rev>, visited: set<Rev>) {
    forall r :: r in visited ==> r in before || exists p :: p in parents && Reaches(chain, p, r)
  }

  lemma ParentsKnown(chain: Chain, rev: Rev)
    requires Complete(chain)
    ensures forall p :: p in Parents(chain, rev) ==> p in chain
  {
  }

  lemma AppendFresh(path: seq<Rev>, rev: Rev)
    requires Distinct(path) && rev !in path
    ensures Distinct(path + [rev])
  {
  }

  lemma NothingYet(chain: Chain, visited: set<Rev>)
    ensures ReachedBy(chain, visited, [], visited)
  {
  }

  lemma ReachedByNext(chain: Chain, before: set<Rev>, parents: seq<Rev>, i: nat, mid: set<Rev>, visited: set<Rev>)
    requires i < |parents| && ReachedBy(chain, before, parents[..i], mid)
    requires forall r :: r in visited ==> r in mid || Reaches(chain, parents[i], r)
    ensures ReachedBy(chain, before, parents[..i + 1], visited)
  {
    assert parents[..i + 1] == parents[..i] + [parents[i]];
  }

  lemma ReachedByRev(chain: Chain, rev: Rev, before: set<Rev>, visited: set<Rev>)
    requires ReachedBy(chain, before, Parents(chain, rev), visited)
    ensures forall r :: r in visited + {rev} ==> r in before || Reaches(chain, rev, r)
  {
    hide Reaches;
    ReachesSelf(chain, rev);
    forall r | r in visited && r !in before
      ensures Reaches(chain, rev, r)
    {
      var p :| p in Parents(chain, rev) && Reaches(chain, p, r);
      ReachesStep(chain, rev, p, r);
    }
  }

  /** Going on to a parent not visited yet, after all those listed before it. */
  lemma ExploredNext(chain: Chain, path: seq<Rev>, i: nat, before: set<Rev>, visited: set<Rev>)
    requires path != [] && Explored(chain, path, before) && before <= visited
    requires var parents := Parents(chain, path[|path| - 1]);
             && i < |parents| && parents[i] !in visited
             && (forall k :: 0 <= k < i ==> parents[k] in visited)
             && ReachedBy(chain, before, parents[..i], visited)
    ensures Explored(chain, path + [Parents(chain, path[|path| - 1])[i]], visited)
  {
    hide Reaches, Earlier, Aside, Parents;
    var parents := Parents(chain, path[|path| - 1]);
    var longer := path + [parents[i]];
    PassedNext(chain, path, i);
    forall r | r in visited
      ensures Aside(chain, longer, r)
    {
      if r in before {
        AsideNext(chain, path, parents[i], r);
      } else {
        var p :| p in parents[..i] && Reaches(chain, p, r);
        AsideHere(chain, longer, |path| - 1, p, r);
      }
    }
  }

  lemma PassedNext(chain: Chain, path: seq<Rev>, i: nat)
    requires path != []
    requires var parents := Parents(chain, path[|path| - 1]); i < |parents| && parents[i] !in parents[..i]
    ensures var parents := Parents(chain, path[|path| - 1]);
            && Passed(chain, path + [parents[i]], |path| - 1) == parents[..i]
            && forall j: nat :: j != |path| - 1 ==> Passed(chain, path + [parents[i]], j) == Passed(chain, path, j)
  {
    EarlierIsPrefix(Parents(chain, path[|path| - 1]), i);
  }

  lemma AsideNext(chain: Chain, path: seq<Rev>, next: Rev, r: Rev)
    requires Aside(chain, path, r)
    ensures Aside(chain, path + [next], r)
  {
    hide Reaches, Earlier;
    var j: nat, p :| p in Passed(chain, path, j) && Reaches(chain, p, r);
    AsideHere(chain, path + [next], j, p, r);
  }

  lemma AsideHere(chain: Chain, path: seq<Rev>, j: nat, p: Rev, r: Rev)
    requires p in Passed(chain, path, j) && Reaches(chain, p, r)
    ensures Aside(chain, path, r)
  {
  }

  lemma {:induction false} EarlierIsPrefix(parents: seq<Rev>, i: nat)
    requires i < |parents| && parents[i] !in parents[..i]
    ensures Earlier(parents, parents[i]) == parents[..i]
  {
    if i > 0 {
      assert parents[..i] == [parents[0]] + parents[1..][..i - 1];
      EarlierIsPrefix(parents[1..], i - 1);
    }
  }

  /** A finished revision reaches finished ones only, and so no cycle. */
  lemma DoneReachesDone(chain: Chain, order: seq<Rev>, p: Rev, r: Rev)
    requires ParentsFirst(chain, order) && p in order && Reaches(chain, p, r)
    ensures r in order && !OnCycle(chain, r)
  {
    var path :| IsPath(chain, path) && path[0] == p && path[|path| - 1] == r;
    var i :| 0 <= i < |order| && order[i] == p;
    var j := PathDescends(chain, order, path, i, |path| - 1);
    forall cycle | IsCycle(chain, cycle) && cycle[0] == r
      ensures false
    {
      NoCycleIn(chain, order, cycle);
    }
  }

  /** Meeting a revision that is in progress closes a cycle: the way to it is the
      lasso, and just what is visited or in progress is seen. */
  lemma BackEdgeIsCycle(chain: Chain, head: Rev, path: seq<Rev>, rev: Rev, order: seq<Rev>, visited: set<Rev>)
    requires IsPath(chain, path + [rev]) && (path + [rev])[0] == head && Distinct(path) && rev in path
    requires ParentsFirst(chain, order) && forall r :: r in order <==> r in visited
    requires Explored(chain, path + [rev], visited)
    ensures OnCycle(chain, rev) && IsLasso(chain, head, path + [rev])
    ensures forall r :: r in visited || r in path <==> Seen(chain, path + [rev], r)
  {
    hide Reaches, OnCycle, ParentsFirst, Passed;
    var lasso := path + [rev];
    assert lasso[..|lasso| - 1] == path;
    forall j: nat, p, r | p in Passed(chain, lasso, j) && Reaches(chain, p, r)
      ensures r in visited && !OnCycle(chain, r)
    {
      DoneReachesDone(chain, order, p, r);
    }
    LassoReachesCycle(chain, head, lasso, |path|);
  }

  lemma PathExtends(chain: Chain, path: seq<Rev>, rev: Rev, parent: Rev)
    requires IsPath(chain, path + [rev]) && parent in Parents(chain, rev)
    ensures IsPath(chain, path + [rev] + [parent])
    ensures (path + [rev] + [parent])[0] == (path + [rev])[0]
  {
  }

  lemma RevisionDone(chain: Chain, order: seq<Rev>, rev: Rev)
    requires ParentsFirst(chain, order) && rev !in order
    requires forall p :: p in Parents(chain, rev) ==> p in order
    ensures ParentsFirst(chain, order + [rev])
  {
    var longer := order + [rev];
    forall i, p | 0 <= i < |longer| && p in Parents(chain, longer[i])
      ensures p in longer[..i]
    {
      if i < |order| { assert longer[..i] == order[..i]; } else { assert longer[..i] == order; }
    }
  }

  // ---------------------------------------------------------------- The whole check

  method CheckReferences(chain: Chain) returns (errors: seq<Error>)
    ensures forall e :: e in errors <==>
      e.MissingReference? && e.rev in chain && e.parent in Parents(chain, e.rev) && e.parent !in chain
  {
    errors := [];
    var todo := chain.Keys;
    while todo != {}
      invariant todo <= chain.Keys
      invariant forall e :: e in errors <==>
        e.MissingReference? && e.rev in chain && e.rev !in todo && e.parent in Parents(chain, e.rev)
          && e.parent !in chain
      decreases todo
    {
      var rev :| rev in todo;
      var parents := Parents(chain, rev);
      ghost var before := errors;
      for i := 0 to |parents|
        invariant forall e :: e in errors <==>
          e in before || (e.MissingReference? && e.rev == rev && e.parent in parents[..i] && e.parent !in chain)
      {
        assert parents[..i + 1] == parents[..i] + [parents[i]];
        if parents[i] !in chain {
          errors := errors + [MissingReference(rev, parents[i])];
        }
      }
      assert parents[..|parents|] == parents;
      todo := todo - {rev};
    }
  }

  function RootErrors(chain: Chain): seq<Error> {
    if |Roots(chain)| == 0 then [NoRoot]
    else if |Roots(chain)| > 1 then [MultipleRoots(Roots(chain))]
    else []
  }

  function HeadErrors(chain: Chain): seq<Error> {
    if |Heads(chain)| == 0 then [NoHead]
    else if |Heads(chain)| > 1 then [MultipleHeads(Heads(chain))]
    else []
  }

  function OrphanErrors(orphans: set<Rev>): seq<Error> {
    if orphans == {} then [] else [Orphans(orphans)]
  }

  ghost function Unreached(chain: Chain, head: Rev): set<Rev> {
    set r | r in chain && !Reaches(chain, head, r)
  }

  ghost function Unseen(chain: Chain, lasso: seq<Rev>): set<Rev> {
    set r | r in chain && !Seen(chain, lasso, r)
  }

  /** The walk reports a cycle, the first on its way, exactly if the head reaches one;
      then the orphans are what it has not seen by that time, otherwise what the head
      does not reach. */
  ghost predicate IsWalkReport(chain: Chain, head: Rev, errors: seq<Error>) {
    if ReachesCycle(chain, head)
    then exists lasso ::
           IsLasso(chain, head, lasso) && errors == [CycleAt(lasso[|lasso| - 1])] + OrphanErrors(Unseen(chain, lasso))
    else errors == OrphanErrors(Unreached(chain, head))
  }

  /** The walk from the only head, and what it could not reach. */
  method WalkFromHead(chain: Chain, head: Rev) returns (errors: seq<Error>)
    requires Complete(chain) && Heads(chain) == {head}
    ensures errors == [] <==> !Cyclic(chain)
    ensures IsWalkReport(chain, head, errors)
    ensures forall e :: e in errors ==> (e.CycleAt? && OnCycle(chain, e.rev)) || e.Orphans?
  {
    hide Reaches, Cyclic, OnCycle, IsLasso, Seen, ReachesCycle;
    var walk := new Walk(chain, head);
    StartPath(chain, head);
    walk.Dfs(head, []);
    errors := walk.errors;
    var orphans := chain.Keys - walk.visited;
    if orphans != {} {
      errors := errors + [Orphans(orphans)];
    }
    if walk.cycleFound {
      LassoStart(chain, head, walk.lasso);
      LassoReachesCycle(chain, head, walk.lasso, 0);
      CycleIsCyclic(chain, walk.lasso[|walk.lasso| - 1]);
      assert orphans == Unseen(chain, walk.lasso);
    } else {
      VisitedIsReachable(chain, head, walk.order, walk.visited);
      VisitedAllIffAcyclic(chain, head, walk.order, walk.visited);
      NoCycleReached(chain, head, walk.order);
      assert orphans == Unreached(chain, head);
    }
    ReportErrors(chain, head, errors);
  }

  lemma StartPath(chain: Chain, head: Rev)
    ensures IsPath(chain, [] + [head]) && Distinct([]) && Explored(chain, [] + [head], {})
  {
  }

  lemma LassoStart(chain: Chain, head: Rev, lasso: seq<Rev>)
    requires IsLasso(chain, head, lasso)
    ensures |lasso| >= 2 && lasso[0] == head
  {
  }

  lemma NoCycleReached(chain: Chain, head: Rev, order: seq<Rev>)
    requires ParentsFirst(chain, order) && head in order
    ensures !ReachesCycle(chain, head)
  {
    forall r | Reaches(chain, head, r)
      ensures !OnCycle(chain, r)
    {
      DoneReachesDone(chain, order, head, r);
    }
  }

  lemma CycleIsCyclic(chain: Chain, r: Rev)
    requires OnCycle(chain, r)
    ensures Cyclic(chain)
  {
  }

  /** Without a cycle the walk visits exactly what the head reaches. */
  lemma VisitedIsReachable(chain: Chain, head: Rev, order: seq<Rev>, visited: set<Rev>)
    requires ParentsFirst(chain, order) && (forall r :: r in order <==> r in visited) && head in visited
    requires forall r :: r in visited ==> Reaches(chain, head, r)
    ensures forall r :: Reaches(chain, head, r) <==> r in visited
  {
    forall r | Reaches(chain, head, r)
      ensures r in visited
    {
      var path :| IsPath(chain, path) && path[0] == head && path[|path| - 1] == r;
      var i :| 0 <= i < |order| && order[i] == head;
      var j := PathDescends(chain, order, path, i, |path| - 1);
      assert order[j] in order;
    }
  }

  /** Revisions stay unreached exactly when there is a cycle the walk never met. */
  lemma VisitedAllIffAcyclic(chain: Chain, head: Rev, order: seq<Rev>, visited: set<Rev>)
    requires Complete(chain) && Heads(chain) == {head} && visited <= chain.Keys
    requires ParentsFirst(chain, order) && (forall r :: r in order <==> r in visited)
    requires forall r :: Reaches(chain, head, r) <==> r in visited
    ensures visited == chain.Keys <==> !Cyclic(chain)
  {
    if !Cyclic(chain) {
      forall r | r in chain
        ensures r in visited
      {
        HeadReachesAll(chain, head, r);
      }
    } else {
      var path :| IsCycle(chain, path);
      assert path[1] in Parents(chain, path[0]);
      assert path[0] in chain;
      if path[0] in visited {
        NoCycleIn(chain, order, path);
      }
    }
  }

  /** What is wrong with the chain before any walk. */
  method StructuralErrors(chain: Chain) returns (errors: seq<Error>)
    ensures errors == [] <==> Complete(chain) && |Roots(chain)| == 1 && |Heads(chain)| == 1
    ensures forall e :: e in errors ==> !e.CycleAt? && !e.Orphans?
    ensures NoRoot in errors <==> Roots(chain) == {}
    ensures forall s :: MultipleRoots(s) in errors <==> s == Roots(chain) && |s| > 1
    ensures NoHead in errors <==> Heads(chain) == {}
    ensures forall s :: MultipleHeads(s) in errors <==> s == Heads(chain) && |s| > 1
    ensures forall r, p :: MissingReference(r, p) in errors <==> r in chain && p in Parents(chain, r) && p !in chain
  {
    var missing := CheckReferences(chain);
    NoneMissingIffComplete(chain, missing);
    errors := RootErrors(chain) + HeadErrors(chain) + missing;
  }

  /** Nothing is wrong before the walk. */
  ghost predicate WellStructured(chain: Chain) {
    Complete(chain) && |Roots(chain)| == 1 && |Heads(chain)| == 1
  }

  /** The check passes exactly the valid chains; otherwise every error it reports is
      real, and every structural one is reported. A cycle is reported exactly if the
      walk takes place and the head reaches one. */
  method CheckChain(chain: Chain) returns (errors: seq<Error>, head: Option<Rev>)
    ensures errors == [] <==> ValidChain(chain)
    ensures head.Some? <==> |Heads(chain)| == 1
    ensures head.Some? ==> head.value in Heads(chain)
    ensures NoRoot in errors <==> Roots(chain) == {}
    ensures forall s :: MultipleRoots(s) in errors <==> s == Roots(chain) && |s| > 1
    ensures NoHead in errors <==> Heads(chain) == {}
    ensures forall s :: MultipleHeads(s) in errors <==> s == Heads(chain) && |s| > 1
    ensures forall r, p :: MissingReference(r, p) in errors <==> r in chain && p in Parents(chain, r) && p !in chain
    ensures WellStructured(chain) ==> IsWalkReport(chain, head.value, errors)
    ensures !WellStructured(chain) ==> forall e :: e in errors ==> !e.CycleAt? && !e.Orphans?
    ensures (exists r :: CycleAt(r) in errors) <==> WellStructured(chain) && ReachesCycle(chain, head.value)
    ensures forall r :: CycleAt(r) in errors ==> OnCycle(chain, r)
    ensures Orphans({}) !in errors
  {
    hide Reaches, Cyclic, OnCycle, Complete, ReachesCycle, IsLasso, Unseen, Unreached, IsWalkReport;
    var heads := Heads(chain);
    head := None;
    if |heads| == 1 {
      var h :| h in heads;
      head := Some(h);
    }
    errors := StructuralErrors(chain);
    assert errors != [] ==> errors[0] in errors;
    if errors == [] {
      OnlyHead(chain, head.value);
      errors := WalkFromHead(chain, head.value);
      CompleteHasNoneMissing(chain);
      ReportErrors(chain, head.value, errors);
    }
  }

  lemma ReportErrors(chain: Chain, head: Rev, errors: seq<Error>)
    requires IsWalkReport(chain, head, errors)
    ensures forall e :: e in errors ==> (e.CycleAt? && OnCycle(chain, e.rev)) || e.Orphans?
    ensures (exists r :: CycleAt(r) in errors) <==> ReachesCycle(chain, head)
    ensures Orphans({}) !in errors
  {
    hide ReachesCycle, Unseen, Unreached, OnCycle;
    if ReachesCycle(chain, head) {
      var lasso :| IsLasso(chain, head, lasso)
        && errors == [CycleAt(lasso[|lasso| - 1])] + OrphanErrors(Unseen(chain, lasso));
      LassoStart(chain, head, lasso);
      LassoReachesCycle(chain, head, lasso, 0);
      assert errors[0] in errors;
    }
  }

  lemma CompleteHasNoneMissing(chain: Chain)
    requires Complete(chain)
    ensures forall r, p :: r in chain && p in Parents(chain, r) ==> p in chain
  {
  }

  lemma NoneMissingIffComplete(chain: Chain, missing: seq<Error>)
    requires forall e :: e in missing <==>
      e.MissingReference? && e.rev in chain && e.parent in Parents(chain, e.rev) && e.parent !in chain
    ensures missing == [] <==> Complete(chain)
  {
    if missing != [] {
      assert missing[0] in missing;
    } else {
      forall r, p | r in chain && p in Parents(chain, r)
        ensures p in chain
      {
        assert MissingReference(r, p) !in missing;
      }
    }
  }

  lemma OnlyHead(chain: Chain, head: Rev)
    requires |Heads(chain)| == 1 && head in Heads(chain)
    ensures Heads(chain) == {head}
  {
    assert |Heads(chain) - {head}| == 0;
  }

  // ---------------------------------------------------------------- Orphans beside a cycle

  /** The orphans reported beside a cycle always hold those the head does not reach.
      They are just those exactly if every revision of the lasso has only parents that
      are on the lasso or reached by a parent it passes over. */
  lemma OrphansExactIff(chain: Chain, head: Rev, lasso: seq<Rev>)
    requires Complete(chain) && head in chain && IsLasso(chain, head, lasso)
    ensures Unreached(chain, head) <= Unseen(chain, lasso)
    ensures Unseen(chain, lasso) == Unreached(chain, head)
            <==> forall r, p :: r in lasso && p in Parents(chain, r) ==> Seen(chain, lasso, p)
  {
    hide Seen, IsLasso, Reaches;
    forall r | r in chain && Seen(chain, lasso, r)
      ensures Reaches(chain, head, r)
    {
      SeenIsReached(chain, head, lasso, r);
    }
    SeenIsAllReached(chain, head, lasso);
    forall r | Reaches(chain, head, r)
      ensures r in chain
    {
      ReachedInside(chain, head, r);
    }
    if Unseen(chain, lasso) == Unreached(chain, head) {
      forall r | Reaches(chain, head, r)
        ensures Seen(chain, lasso, r)
      {
        assert r in chain && r !in Unseen(chain, lasso);
      }
    }
  }

  lemma ReachedInside(chain: Chain, head: Rev, r: Rev)
    requires Complete(chain) && head in chain && Reaches(chain, head, r)
    ensures r in chain
  {
    var path :| IsPath(chain, path) && path[0] == head && path[|path| - 1] == r;
    PathInside(chain, path, |path| - 1);
  }

  /** B is a parent of the head, and reported as not reachable from it: the walk meets
      the cycle at A first. */
  method ReportReachedOrphan() returns (chain: Chain, errors: seq<Error>)
    ensures chain == map["H" := Some(["A", "B"]), "A" := Some(["A"]), "B" := None]
    ensures errors == [CycleAt("A"), Orphans({"B"})] && Reaches(chain, "H", "B")
  {
    chain := map["H" := Some(["A", "B"]), "A" := Some(["A"]), "B" := None];
    ghost var lasso := ["H", "A", "A"];
    ReachedOrphan(chain, lasso);
    var head;
    errors, head := CheckChain(chain);
    LassoReachesCycle(chain, "H", lasso, 0);
    ghost var way :| IsLasso(chain, "H", way) && errors == [CycleAt(way[|way| - 1])] + OrphanErrors(Unseen(chain, way));
    LassoUnique(chain, "H", lasso, way);
  }

  lemma ReachedOrphan(chain: Chain, lasso: seq<Rev>)
    requires chain == map["H" := Some(["A", "B"]), "A" := Some(["A"]), "B" := None] && lasso == ["H", "A", "A"]
    ensures WellStructured(chain) && Heads(chain) == {"H"}
    ensures IsLasso(chain, "H", lasso) && Unseen(chain, lasso) == {"B"} && Reaches(chain, "H", "B")
  {
    assert Parents(chain, "H")[0] == "A" && Parents(chain, "H")[1] == "B" && Parents(chain, "A")[0] == "A";
    assert AllParents(chain) == {"A", "B"};
    assert Roots(chain) == {"B"} && Heads(chain) == {"H"};
    assert Passed(chain, lasso, 0) == [] && Passed(chain, lasso, 1) == [];
    assert forall j: nat :: Passed(chain, lasso, j) == [];
    assert IsPath(chain, ["H", "B"]);
  }
}
