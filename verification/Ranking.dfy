/** Ranking logbook flights against a GPS segment: score_gps_candidates and
    rank_near_date_candidates. The scorer is a parameter. */
module Ranking {
  import opened Options
  import opened StableSort

  /** Dates are day numbers. */
  datatype Candidate = Candidate(id: int, date: int, departure: Option<string>, arrival: Option<string>)

  const NEAR_DATE_DAYS := 2

  function Filter(cs: seq<Candidate>, keep: Candidate -> bool): seq<Candidate> {
    if cs == [] then []
    else (if keep(cs[0]) then [cs[0]] else []) + Filter(cs[1..], keep)
  }

  function DescendingScore(scorer: Candidate -> real): Candidate -> real {
    (c: Candidate) => -scorer(c)
  }

  function ScoreCandidates(cs: seq<Candidate>, scorer: Candidate -> real, minScore: int): seq<Candidate> {
    SortBy(Filter(cs, (c: Candidate) => scorer(c) >= minScore as real), DescendingScore(scorer))
  }

  function DaysOff(gpsDate: int): Candidate -> real {
    (c: Candidate) => (if c.date >= gpsDate then c.date - gpsDate else gpsDate - c.date) as real
  }

  /** Another date, close, and the same known route. */
  predicate Near(gpsDate: int, dep: string, arr: string, c: Candidate) {
    && c.date != gpsDate
    && -NEAR_DATE_DAYS <= c.date - gpsDate <= NEAR_DATE_DAYS
    && c.departure == Some(dep) && c.arrival == Some(arr)
  }

  function RankNearDate(dep: Option<string>, arr: Option<string>, gpsDate: int, cs: seq<Candidate>,
                        scorer: Candidate -> real, minScore: int): seq<Candidate>
  {
    if dep.None? || dep.value == "" || arr.None? || arr.value == "" then []
    else
      var pool := Filter(cs, (c: Candidate) => Near(gpsDate, dep.value, arr.value, c));
      SortBy(ScoreCandidates(pool, scorer, minScore), DaysOff(gpsDate))
  }

  /** What may be offered at all. */
  ghost predicate Qualifies(dep: Option<string>, arr: Option<string>, gpsDate: int, scorer: Candidate -> real,
                            minScore: int, c: Candidate) {
    && dep.Some? && dep.value != "" && arr.Some? && arr.value != ""
    && c.departure == dep && c.arrival == arr
    && c.date != gpsDate && gpsDate - 2 <= c.date <= gpsDate + 2
    && scorer(c) >= minScore as real
  }

  lemma {:induction false} FilterCounts(cs: seq<Candidate>, keep: Candidate -> bool, c: Candidate)
    ensures multiset(Filter(cs, keep))[c] == if keep(c) then multiset(cs)[c] else 0
  {
    if cs != [] {
      FilterCounts(cs[1..], keep, c);
      assert cs == [cs[0]] + cs[1..];
    }
  }

  /** The ranking offers exactly the qualifying candidates, each as often as given. */
  lemma RankOffersQualifying(dep: Option<string>, arr: Option<string>, gpsDate: int, cs: seq<Candidate>,
                             scorer: Candidate -> real, minScore: int, c: Candidate)
    ensures multiset(RankNearDate(dep, arr, gpsDate, cs, scorer, minScore))[c]
            == if Qualifies(dep, arr, gpsDate, scorer, minScore, c) then multiset(cs)[c] else 0
  {
    if dep.Some? && dep.value != "" && arr.Some? && arr.value != "" {
      var near := (c: Candidate) => Near(gpsDate, dep.value, arr.value, c);
      var good := (c: Candidate) => scorer(c) >= minScore as real;
      var pool := Filter(cs, near);
      FilterCounts(cs, near, c);
      FilterCounts(pool, good, c);
      SortPermutes(Filter(pool, good), DescendingScore(scorer));
      SortPermutes(ScoreCandidates(pool, scorer, minScore), DaysOff(gpsDate));
    }
  }

  /** Closest date first, and the best score first among equally close ones. */
  lemma RankIsLexicographic(dep: Option<string>, arr: Option<string>, gpsDate: int, cs: seq<Candidate>,
                            scorer: Candidate -> real, minScore: int)
    ensures Lexicographic(RankNearDate(dep, arr, gpsDate, cs, scorer, minScore), DaysOff(gpsDate),
                          DescendingScore(scorer))
  {
    if dep.Some? && dep.value != "" && arr.Some? && arr.value != "" {
      var pool := Filter(cs, (c: Candidate) => Near(gpsDate, dep.value, arr.value, c));
      SortAscending(Filter(pool, (c: Candidate) => scorer(c) >= minScore as real), DescendingScore(scorer));
      SortTwice(ScoreCandidates(pool, scorer, minScore), DaysOff(gpsDate), DescendingScore(scorer));
    }
  }

  lemma {:induction false} WithKeyCommutes(cs: seq<Candidate>, f: Candidate -> real, g: Candidate -> real, u: real,
                                           v: real)
    ensures WithKey(WithKey(cs, f, u), g, v) == WithKey(WithKey(cs, g, v), f, u)
  {
    if cs != [] {
      WithKeyCommutes(cs[1..], f, g, u, v);
      var head, fs, gs := cs[0], WithKey(cs[1..], f, u), WithKey(cs[1..], g, v);
      assert ([head] + fs)[1..] == fs && ([head] + gs)[1..] == gs;
      assert WithKey(cs, f, u) == if f(head) == u then [head] + fs else fs;
      assert WithKey(cs, g, v) == if g(head) == v then [head] + gs else gs;
      assert WithKey([head] + fs, g, v) == (if g(head) == v then [head] else []) + WithKey(fs, g, v);
      assert WithKey([head] + gs, f, u) == (if f(head) == u then [head] else []) + WithKey(gs, f, u);
    }
  }

  /** The same in dates and scores: who comes first is at most as far off, and if as far,
      scores at least as high. */
  lemma CloserThenBetter(dep: Option<string>, arr: Option<string>, gpsDate: int, cs: seq<Candidate>,
                         scorer: Candidate -> real, minScore: int, i: nat, j: nat)
    requires i <= j < |RankNearDate(dep, arr, gpsDate, cs, scorer, minScore)|
    ensures var ranked := RankNearDate(dep, arr, gpsDate, cs, scorer, minScore);
            var a, b := Distance(ranked[i].date, gpsDate), Distance(ranked[j].date, gpsDate);
            a < b || (a == b && scorer(ranked[i]) >= scorer(ranked[j]))
  {
    RankIsLexicographic(dep, arr, gpsDate, cs, scorer, minScore);
    var ranked := RankNearDate(dep, arr, gpsDate, cs, scorer, minScore);
    assert Before(ranked[i], ranked[j], DaysOff(gpsDate), DescendingScore(scorer));
  }

  function Distance(a: int, b: int): (d: nat)
    ensures a == b + d || b == a + d
  {
    if a >= b then a - b else b - a
  }

  /** Candidates tied on both counts keep the order they were given in. */
  lemma RankKeepsTies(dep: string, arr: string, gpsDate: int, cs: seq<Candidate>,
                      scorer: Candidate -> real, minScore: int, days: real, score: real)
    requires dep != "" && arr != ""
    ensures var ranked := RankNearDate(Some(dep), Some(arr), gpsDate, cs, scorer, minScore);
            var offered := Filter(Filter(cs, (c: Candidate) => Near(gpsDate, dep, arr, c)),
                                  (c: Candidate) => scorer(c) >= minScore as real);
            WithKey(WithKey(ranked, DaysOff(gpsDate), days), DescendingScore(scorer), score)
            == WithKey(WithKey(offered, DaysOff(gpsDate), days), DescendingScore(scorer), score)
  {
    var pool := Filter(cs, (c: Candidate) => Near(gpsDate, dep, arr, c));
    var offered := Filter(pool, (c: Candidate) => scorer(c) >= minScore as real);
    var byScore := ScoreCandidates(pool, scorer, minScore);
    SortStable(byScore, DaysOff(gpsDate), days);
    SortStable(offered, DescendingScore(scorer), score);
    WithKeyCommutes(byScore, DaysOff(gpsDate), DescendingScore(scorer), days, score);
    WithKeyCommutes(offered, DaysOff(gpsDate), DescendingScore(scorer), days, score);
  }
}
