/** What holds after every run of review operations on one upload. */
module ReviewFacts {
  import opened Options
  import opened StableSort
  import opened Review
  import opened Sequences

  /** The decisions that are not skips; the page counts them as imported flights. */
  ghost function NonSkip(confirmed: map<int, Decision>): set<int> {
    set k | k in confirmed && confirmed[k].Imported?
  }

  ghost predicate Distinct(log: seq<int>) {
    forall i, j :: 0 <= i < j < |log| ==> log[i] != log[j]
  }

  ghost predicate AllDecided(s: State) {
    forall k :: 0 <= k < |s.segments| ==> k in s.confirmed
  }

  /** Each import is of a segment, logged once, counted once, and stays a non-skip decision. */
  ghost predicate Accounted(s: State) {
    && Distinct(s.log) && |s.log| == s.imported
    && forall k :: k in s.log ==> 0 <= k < |s.segments| && k in NonSkip(s.confirmed)
  }

  /** `t` decides at least what `s` does, and keeps its imports. */
  ghost predicate Grows(s: State, t: State) {
    |t.segments| == |s.segments| && s.confirmed.Keys <= t.confirmed.Keys && s.log <= t.log
  }

  // ---------------------------------------------------------------- Counting

  ghost function Open(s: State): set<int> {
    set k | 0 <= k < |s.segments| && k !in s.confirmed
  }

  /** Decisions about no segment: only a form save with a wrong index makes one. */
  ghost function Strays(s: State): set<int> {
    set k | k in s.confirmed && !(0 <= k < |s.segments|)
  }

  /** The end test compares two counts. They agree exactly when there are as many
      undecided segments as decisions about no segment. */
  lemma EndTestCounts(s: State)
    ensures |s.confirmed| == |s.segments| <==> |Open(s)| == |Strays(s)|
  {
    var decided := s.confirmed.Keys - Strays(s);
    assert s.confirmed.Keys == decided + Strays(s);
    FillRange(|s.segments|, decided, Open(s));
    assert |s.confirmed.Keys| == |s.confirmed|;
  }

  lemma {:induction false} FillRange(n: nat, a: set<int>, b: set<int>)
    requires a !! b && forall k :: k in a || k in b <==> 0 <= k < n
    ensures |a| + |b| == n
  {
    assert |a + b| == |a| + |b|;
    CountRange(n, a + b);
  }

  /** Without such decisions it means that every segment is decided. */
  lemma EndTestIsExact(s: State)
    requires Strays(s) == {}
    ensures |s.confirmed| == |s.segments| <==> AllDecided(s)
  {
    EndTestCounts(s);
    SomeMember(Open(s));
    forall k | 0 <= k < |s.segments|
      ensures k in s.confirmed <==> k !in Open(s)
    {
    }
  }

  /** Two segments, a form save for a third that does not exist, and one skip: the
      session ends with a segment undecided. */
  lemma StraySaveEndsEarly(a: Segment, b: Segment, flight: int, flights: Importer)
    ensures var s := Run(Fresh([a, b]), [FormSave(2, flight), ConfirmOne(Some(0), true, None)], flights);
            !s.live && 1 !in s.confirmed
  {
    var save, skip := FormSave(2, flight), ConfirmOne(Some(0), true, None);
    assert [save, skip][..1] == [save] && [save][..0] == [];
    assert Run(Fresh([a, b]), [save], flights) == Step(Run(Fresh([a, b]), [], flights), save, flights);
    var s := Run(Fresh([a, b]), [save, skip], flights);
    assert s.confirmed == map[2 := Imported(flight), 0 := Skipped];
    assert s.confirmed.Keys == {2, 0};
    assert |s.confirmed| == |s.confirmed.Keys|;
  }

  lemma {:induction false} DistinctCount(log: seq<int>, keys: set<int>)
    requires Distinct(log) && forall k :: k in log <==> k in keys
    ensures |log| == |keys|
    decreases |log|
  {
    if log == [] {
      SomeMember(keys);
    } else {
      var k := log[0];
      forall j
        ensures j in log[1..] <==> j in keys - {k}
      {
        if j in log && j != k { var i :| 0 <= i < |log| && log[i] == j; assert log[1..][i - 1] == j; }
      }
      DistinctCount(log[1..], keys - {k});
    }
  }

  /** The non-skip decisions that no import made. */
  ghost function Uncounted(s: State): set<int> {
    set k | k in NonSkip(s.confirmed) && k !in s.log
  }

  lemma CounterGap(s: State)
    requires Accounted(s)
    ensures |NonSkip(s.confirmed)| == s.imported + |Uncounted(s)|
  {
    var logged := NonSkip(s.confirmed) - Uncounted(s);
    DistinctCount(s.log, logged);
    assert NonSkip(s.confirmed) == logged + Uncounted(s);
  }

  // ---------------------------------------------------------------- One operation

  lemma ImportAccounted(s: State, k: int, flights: Importer)
    requires Accounted(s) && 0 <= k < |s.segments| && k !in s.confirmed
    ensures var t := Import(s, k, flights); Accounted(t) && Uncounted(t) == Uncounted(s)
  {
    var t := Import(s, k, flights);
    assert forall j :: j in t.log <==> j in s.log || j == k;
    forall i | 0 <= i < |s.log|
      ensures s.log[i] != k
    {
      assert s.log[i] in s.log;
    }
  }

  lemma SkipAccounted(s: State, k: int)
    requires Accounted(s) && 0 <= k < |s.segments| && k !in s.confirmed
    ensures Accounted(Skip(s, k)) && Uncounted(Skip(s, k)) == Uncounted(s)
  {
  }

  lemma {:induction false} AllOverAccounted(s: State, order: seq<int>, flights: Importer)
    requires Accounted(s)
    ensures var t := AllOver(s, order, flights);
            Accounted(t) && Grows(s, t) && Uncounted(t) == Uncounted(s) && Strays(t) == Strays(s)
  {
    if order != [] {
      var n := |order| - 1;
      AllOverAccounted(s, order[..n], flights);
      var t, k := AllOver(s, order[..n], flights), order[n];
      if 0 <= k < |t.segments| && k !in t.confirmed {
        ImportAccounted(t, k, flights);
        SkipAccounted(t, k);
      }
    }
  }

  /** Confirming one segment decides it, as asked, and no other; asked about anything
      but an undecided segment of a live session it does nothing at all. */
  lemma OneStepDecides(s: State, seg: Option<int>, skip: bool, picked: Option<int>, flights: Importer)
    ensures var t := OneStep(s, seg, skip, picked, flights);
            && (t != s <==> Undecided(s, seg))
            && (Undecided(s, seg) ==>
                  && t.confirmed.Keys == s.confirmed.Keys + {seg.value}
                  && t.confirmed == s.confirmed[seg.value := if skip then Skipped else Imported(flights(seg.value))]
                  && t.imported == s.imported + (if skip then 0 else 1)
                  && t.log == s.log + (if skip then [] else [seg.value])
                  && |t.segments| == |s.segments|
                  && (forall j :: 0 <= j < |s.segments| && (j != seg.value || skip || !s.segments[j].ambiguous) ==>
                       t.segments[j] == s.segments[j])
                  && (!skip && s.segments[seg.value].ambiguous ==> t.segments[seg.value].matchedFlight == picked)
                  && (t.live <==> |t.confirmed| != |t.segments|))
  {
    if Undecided(s, seg) {
      assert seg.value in OneStep(s, seg, skip, picked, flights).confirmed;
    }
  }

  /** A decision made one by one ends the session exactly if it is the last one. */
  lemma OneStepEnds(s: State, seg: Option<int>, skip: bool, picked: Option<int>, flights: Importer)
    requires Undecided(s, seg) && Strays(s) == {}
    ensures var t := OneStep(s, seg, skip, picked, flights); Strays(t) == {} && (t.live <==> !AllDecided(t))
  {
    OneStepDecides(s, seg, skip, picked, flights);
    hide OneStep;
    var t := OneStep(s, seg, skip, picked, flights);
    assert Strays(t) == {};
    EndTestIsExact(t);
  }

  /** In a live session a form save decides the segment its index names, whether or not
      it was decided, and no other; it counts no import and ends nothing. */
  lemma FormStepDecides(s: State, k: int, flight: int)
    ensures var t := FormStep(s, k, flight);
            && t.live == s.live && t.imported == s.imported && t.log == s.log && t.segments == s.segments
            && (!s.live ==> t.confirmed == s.confirmed)
            && (s.live ==>
                  && k in t.confirmed && t.confirmed[k] == Imported(flight)
                  && t.confirmed.Keys == s.confirmed.Keys + {k}
                  && (forall j :: j in s.confirmed && j != k ==> t.confirmed[j] == s.confirmed[j])
                  && NonSkip(t.confirmed) == NonSkip(s.confirmed) + {k}
                  && Open(t) == Open(s) - {k}
                  && Strays(t) == Strays(s) + if 0 <= k < |s.segments| then {} else {k})
  {
  }

  lemma OneStepAccounted(s: State, seg: Option<int>, skip: bool, picked: Option<int>, flights: Importer)
    requires Accounted(s)
    ensures var t := OneStep(s, seg, skip, picked, flights);
            Accounted(t) && Grows(s, t) && Uncounted(t) == Uncounted(s)
  {
    if Undecided(s, seg) {
      var p := if skip then s else Pick(s, seg.value, picked);
      assert Accounted(p) && Uncounted(p) == Uncounted(s);
      ImportAccounted(p, seg.value, flights);
      SkipAccounted(p, seg.value);
    }
  }

  /** A save that makes a non-skip decision no import has made or will make. */
  ghost predicate UncountedSave(s: State, op: Operation) {
    op.FormSave? && s.live && op.index !in s.log
  }

  /** Every operation keeps the accounts; only a form save gets around the counter. */
  lemma StepAccounted(s: State, op: Operation, flights: Importer)
    requires Accounted(s)
    ensures var t := Step(s, op, flights);
            && Accounted(t) && Grows(s, t)
            && (Uncounted(t) == {} <==> Uncounted(s) == {} && !UncountedSave(s, op))
  {
    match op
    case ConfirmOne(seg, skip, picked) => OneStepAccounted(s, seg, skip, picked, flights);
    case ConfirmAll => AllOverAccounted(s, ReviewOrder(s.segments), flights);
    case FormSave(k, flight) =>
      if s.live {
        assert Uncounted(Step(s, op, flights)) == Uncounted(s) + if k in s.log then {} else {k};
      }
  }

  // ---------------------------------------------------------------- Every run

  /** The state before the n-th operation of a run. */
  function Before(segments: seq<Segment>, ops: seq<Operation>, n: nat, flights: Importer): State
    requires n <= |ops|
  {
    Run(Fresh(segments), ops[..n], flights)
  }

  lemma BeforeNext(segments: seq<Segment>, ops: seq<Operation>, n: nat, flights: Importer)
    requires n < |ops|
    ensures Before(segments, ops, n + 1, flights) == Step(Before(segments, ops, n, flights), ops[n], flights)
  {
    assert ops[..n + 1][..n] == ops[..n];
  }

  /** Over every run each segment is imported at most once, and the batch counter is
      the number of non-skip decisions exactly if no form save decided a segment that
      had not been imported. */
  lemma EveryRunConsistent(segments: seq<Segment>, ops: seq<Operation>, flights: Importer)
    ensures var s := Run(Fresh(segments), ops, flights);
            && Accounted(s) && |s.segments| == |segments|
            && (s.imported == |NonSkip(s.confirmed)|
                <==> forall n :: 0 <= n < |ops| ==> !UncountedSave(Before(segments, ops, n, flights), ops[n]))
  {
    assert ops[..|ops|] == ops;
    RunAccounted(segments, ops, |ops|, flights);
    var s := Run(Fresh(segments), ops, flights);
    CounterGap(s);
    SomeMember(Uncounted(s));
  }

  lemma {:induction false} RunAccounted(segments: seq<Segment>, ops: seq<Operation>, m: nat, flights: Importer)
    requires m <= |ops|
    ensures var s := Before(segments, ops, m, flights);
            && Accounted(s) && |s.segments| == |segments|
            && (Uncounted(s) == {} <==>
                  forall n :: 0 <= n < m ==> !UncountedSave(Before(segments, ops, n, flights), ops[n]))
  {
    hide Accounted, Uncounted, UncountedSave, Step, Before;
    if m == 0 {
      FreshAccounted(segments, ops, flights);
    } else {
      RunAccounted(segments, ops, m - 1, flights);
      BeforeNext(segments, ops, m - 1, flights);
      StepAccounted(Before(segments, ops, m - 1, flights), ops[m - 1], flights);
    }
  }

  lemma FreshAccounted(segments: seq<Segment>, ops: seq<Operation>, flights: Importer)
    ensures var s := Before(segments, ops, 0, flights);
            s == Fresh(segments) && Accounted(s) && Uncounted(s) == {}
  {
    assert NonSkip(Fresh(segments).confirmed) == {};
  }

  /** The flight of the last save of the form for segment k, if any took effect. */
  function LastSave(s: State, ops: seq<Operation>, k: int, flights: Importer): Option<int> {
    if ops == [] then None
    else
      var init, op := ops[..|ops| - 1], ops[|ops| - 1];
      if op.FormSave? && op.index == k && Run(s, init, flights).live then Some(op.flight)
      else LastSave(s, init, k, flights)
  }

  /** A decision, once made, survives any further operations, except that every form
      save for its segment replaces it. */
  lemma {:induction false} DecisionsAreFinal(s: State, more: seq<Operation>, k: int, flights: Importer)
    requires k in s.confirmed
    ensures var t := Run(s, more, flights);
            && k in t.confirmed
            && t.confirmed[k] == match LastSave(s, more, k, flights)
                                 case None => s.confirmed[k]
                                 case Some(f) => Imported(f)
  {
    if more != [] {
      var init, op := more[..|more| - 1], more[|more| - 1];
      DecisionsAreFinal(s, init, k, flights);
      StepKeepsDecision(Run(s, init, flights), op, k, flights);
    }
  }

  lemma StepKeepsDecision(s: State, op: Operation, k: int, flights: Importer)
    requires k in s.confirmed
    ensures var t := Step(s, op, flights);
            && k in t.confirmed
            && t.confirmed[k] == if op.FormSave? && op.index == k && s.live then Imported(op.flight) else s.confirmed[k]
  {
    if op.ConfirmAll? {
      AllOverKeeps(s, ReviewOrder(s.segments), k, flights);
    }
  }

  lemma {:induction false} AllOverKeeps(s: State, order: seq<int>, k: int, flights: Importer)
    requires k in s.confirmed
    ensures var t := AllOver(s, order, flights); k in t.confirmed && t.confirmed[k] == s.confirmed[k]
  {
    if order != [] {
      AllOverKeeps(s, order[..|order| - 1], k, flights);
    }
  }

  // ---------------------------------------------------------------- The end of a session

  /** All is decided and the session goes on. */
  ghost predicate Hanging(s: State) {
    s.live && s.segments != [] && AllDecided(s)
  }

  /** An ended session has as many undecided segments as decisions about no segment. */
  ghost predicate EndsWell(s: State) {
    !s.live ==> |Open(s)| == |Strays(s)|
  }

  /** A form save with an index that names no segment. */
  ghost predicate StraySave(s: State, op: Operation) {
    op.FormSave? && s.live && !(0 <= op.index < |s.segments|)
  }

  /** A form save that makes the last decision. */
  ghost predicate Completes(s: State, op: Operation) {
    op.FormSave? && s.live && !AllDecided(s) && AllDecided(FormStep(s, op.index, op.flight))
  }

  /** Strays come from form saves only, and stay. */
  lemma StepStrays(s: State, op: Operation, flights: Importer)
    requires Accounted(s)
    ensures var t := Step(s, op, flights); Strays(t) == Strays(s) + if StraySave(s, op) then {op.index} else {}
  {
    match op
    case ConfirmOne(seg, skip, picked) => OneStepStrays(s, seg, skip, picked, flights);
    case ConfirmAll => AllOverAccounted(s, ReviewOrder(s.segments), flights);
    case FormSave(k, flight) => FormStepDecides(s, k, flight);
  }

  lemma OneStepStrays(s: State, seg: Option<int>, skip: bool, picked: Option<int>, flights: Importer)
    ensures Strays(OneStep(s, seg, skip, picked, flights)) == Strays(s)
  {
    OneStepDecides(s, seg, skip, picked, flights);
    hide OneStep;
  }

  /** One operation ends the session only when the counts agree. Without strays that
      is when all is decided, and then it does end it, except when a form save makes
      the last decision; after that only confirm-all does. */
  lemma StepConsistent(s: State, op: Operation, flights: Importer)
    requires Accounted(s) && EndsWell(s) && s.segments != []
    ensures var t := Step(s, op, flights);
            && EndsWell(t)
            && (Strays(t) == {} ==> (Hanging(t) <==> (Hanging(s) && !op.ConfirmAll?) || Completes(s, op)))
  {
    StepStrays(s, op, flights);
    var t := Step(s, op, flights);
    EndTestCounts(t);
    match op
    case ConfirmOne(seg, skip, picked) =>
      OneStepDecides(s, seg, skip, picked, flights);
      if Undecided(s, seg) && Strays(s) == {} { OneStepEnds(s, seg, skip, picked, flights); }
    case ConfirmAll => if s.live { AllStepEnds(s, flights); }
    case FormSave(k, flight) =>
  }

  /** Confirm-all ends the session exactly if the counts then agree. */
  lemma AllStepEnds(s: State, flights: Importer)
    requires Accounted(s) && s.live
    ensures var t := AllStep(s, flights);
            (!t.live <==> |Open(t)| == |Strays(t)|) && (Strays(t) == {} ==> (!t.live <==> AllDecided(t)))
  {
    AllOverAccounted(s, ReviewOrder(s.segments), flights);
    var t := AllStep(s, flights);
    EndTestCounts(t);
    if Strays(t) == {} { EndTestIsExact(t); }
  }

  /** Over every run: an ended session has as many undecided segments as strays, so it
      has every segment decided exactly if no form save took effect on an index that
      names none. A session goes on with every segment decided exactly if there was
      such a save, or a form save made the last decision and there was no confirm-all
      since. */
  lemma SessionEnds(segments: seq<Segment>, ops: seq<Operation>, flights: Importer)
    requires segments != []
    ensures var s := Run(Fresh(segments), ops, flights);
            && (!s.live ==> |Open(s)| == |Strays(s)|)
            && (!s.live ==> (AllDecided(s) <==> NoStraySave(segments, ops, |ops|, flights)))
            && (AllDecided(s) ==>
                  (s.live <==>
                     !NoStraySave(segments, ops, |ops|, flights) || HangsSince(segments, ops, |ops|, flights)))
  {
    assert ops[..|ops|] == ops;
    RunConsistent(segments, ops, |ops|, flights);
    var s := Run(Fresh(segments), ops, flights);
    OpenIffUndecided(s);
    SomeMember(Strays(s));
  }

  lemma OpenIffUndecided(s: State)
    ensures AllDecided(s) <==> Open(s) == {}
  {
    forall k | 0 <= k < |s.segments|
      ensures k in s.confirmed <==> k !in Open(s)
    {
    }
  }

  ghost predicate StraySaveAt(segments: seq<Segment>, ops: seq<Operation>, n: nat, flights: Importer)
    requires n < |ops|
  {
    StraySave(Before(segments, ops, n, flights), ops[n])
  }

  ghost predicate NoStraySave(segments: seq<Segment>, ops: seq<Operation>, m: nat, flights: Importer)
    requires m <= |ops|
  {
    forall n: nat :: n < m ==> !StraySaveAt(segments, ops, n, flights)
  }

  /** Every segment decided, and some stray: the session never ends any more. */
  lemma {:induction false} StuckForever(s: State, more: seq<Operation>, flights: Importer)
    requires s.live && AllDecided(s) && Strays(s) != {}
    ensures var t := Run(s, more, flights);
            t.live && AllDecided(t) && Strays(s) <= Strays(t) && |t.segments| == |s.segments|
  {
    if more != [] {
      var init, op := more[..|more| - 1], more[|more| - 1];
      StuckForever(s, init, flights);
      StuckStep(Run(s, init, flights), op, flights);
    }
  }

  /** One segment, and form saves for a second that does not exist and for the first:
      nothing that follows ends the session, confirm-all included. */
  lemma StraySaveNeverEnds(a: Segment, flight: int, more: seq<Operation>, flights: Importer)
    ensures Run(FormStep(FormStep(Fresh([a]), 1, flight), 0, flight), more, flights).live
  {
    var s := FormStep(FormStep(Fresh([a]), 1, flight), 0, flight);
    assert 1 in Strays(s);
    StuckForever(s, more, flights);
  }

  lemma StuckStep(s: State, op: Operation, flights: Importer)
    requires s.live && AllDecided(s) && Strays(s) != {}
    ensures var t := Step(s, op, flights);
            t.live && AllDecided(t) && Strays(s) <= Strays(t) && |t.segments| == |s.segments|
  {
    OpenIffUndecided(s);
    SomeMember(Strays(s));
    EndTestCounts(s);
    match op
    case ConfirmOne(seg, skip, picked) =>
    case ConfirmAll => NothingLeftToDo(s, ReviewOrder(s.segments), flights);
    case FormSave(k, flight) =>
  }

  ghost predicate CompletesAt(segments: seq<Segment>, ops: seq<Operation>, n: nat, flights: Importer)
    requires n < |ops|
  {
    Completes(Before(segments, ops, n, flights), ops[n])
  }

  ghost predicate HangsSince(segments: seq<Segment>, ops: seq<Operation>, m: nat, flights: Importer)
    requires m <= |ops|
  {
    exists n: nat :: n < m && CompletesAt(segments, ops, n, flights) && forall k :: n < k < m ==> !ops[k].ConfirmAll?
  }

  lemma {:induction false} RunConsistent(segments: seq<Segment>, ops: seq<Operation>, m: nat, flights: Importer)
    requires m <= |ops| && segments != []
    ensures var s := Before(segments, ops, m, flights);
            && EndsWell(s) && s.segments != []
            && (Strays(s) == {} <==> NoStraySave(segments, ops, m, flights))
            && (Strays(s) == {} ==> (Hanging(s) <==> HangsSince(segments, ops, m, flights)))
  {
    hide EndsWell, Hanging, Completes, Step, Before, Accounted, UncountedSave, Uncounted, Strays, StraySave;
    RunAccounted(segments, ops, m, flights);
    if m == 0 {
      FreshConsistent(segments, ops, flights);
    } else {
      RunConsistent(segments, ops, m - 1, flights);
      RunAccounted(segments, ops, m - 1, flights);
      BeforeNext(segments, ops, m - 1, flights);
      StepStrays(Before(segments, ops, m - 1, flights), ops[m - 1], flights);
      StepConsistent(Before(segments, ops, m - 1, flights), ops[m - 1], flights);
      assert NoStraySave(segments, ops, m, flights)
        <==> NoStraySave(segments, ops, m - 1, flights) && !StraySaveAt(segments, ops, m - 1, flights);
      HangsNext(segments, ops, m - 1, flights);
    }
  }

  lemma FreshConsistent(segments: seq<Segment>, ops: seq<Operation>, flights: Importer)
    requires segments != []
    ensures var s := Before(segments, ops, 0, flights); EndsWell(s) && !Hanging(s) && Strays(s) == {}
  {
    assert 0 !in Fresh(segments).confirmed;
  }

  lemma HangsNext(segments: seq<Segment>, ops: seq<Operation>, m: nat, flights: Importer)
    requires m < |ops|
    ensures HangsSince(segments, ops, m + 1, flights)
            <==>
            (HangsSince(segments, ops, m, flights) && !ops[m].ConfirmAll?) || CompletesAt(segments, ops, m, flights)
  {
    hide CompletesAt;
    if HangsSince(segments, ops, m, flights) && !ops[m].ConfirmAll? {
      var n: nat :| n < m && CompletesAt(segments, ops, n, flights) && forall k :: n < k < m ==> !ops[k].ConfirmAll?;
      assert forall k :: n < k < m + 1 ==> !ops[k].ConfirmAll?;
    }
  }

  // ---------------------------------------------------------------- Flights of a segment

  /** The step makes a flight for segment k: it imports it, or saves the form for it. */
  ghost predicate Makes(s: State, op: Operation, k: int, flights: Importer) {
    if op.FormSave? then s.live && op.index == k else k !in s.log && k in Step(s, op, flights).log
  }

  /** How many flights the first m operations made for segment k. */
  ghost function FlightsMade(segments: seq<Segment>, ops: seq<Operation>, m: nat, k: int, flights: Importer): nat
    requires m <= |ops|
  {
    if m == 0 then 0
    else
      FlightsMade(segments, ops, m - 1, k, flights)
      + if Makes(Before(segments, ops, m - 1, flights), ops[m - 1], k, flights) then 1 else 0
  }

  /** A form save that takes effect on a segment that has a flight already. */
  ghost predicate SecondFlight(s: State, op: Operation, k: int) {
    op.FormSave? && s.live && op.index == k && k in NonSkip(s.confirmed)
  }

  /** Whoever gets a flight has a non-skip decision from then on; an import is only
      made for a segment without one. */
  lemma StepMakes(s: State, op: Operation, k: int, flights: Importer)
    requires Accounted(s)
    ensures k in NonSkip(Step(s, op, flights).confirmed) <==> k in NonSkip(s.confirmed) || Makes(s, op, k, flights)
    ensures Makes(s, op, k, flights) && k in NonSkip(s.confirmed) <==> SecondFlight(s, op, k)
  {
    var t := Step(s, op, flights);
    match op
    case ConfirmOne(seg, skip, picked) => OneStepDecides(s, seg, skip, picked, flights);
    case ConfirmAll => if s.live { AllOverMakes(s, ReviewOrder(s.segments), k, flights); }
    case FormSave(i, flight) => FormStepDecides(s, i, flight);
  }

  lemma {:induction false} AllOverMakes(s: State, order: seq<int>, k: int, flights: Importer)
    requires Accounted(s)
    ensures var t := AllOver(s, order, flights);
            && (k in NonSkip(t.confirmed) <==> k in NonSkip(s.confirmed) || (k !in s.log && k in t.log))
            && (k in NonSkip(s.confirmed) && k !in s.log ==> k !in t.log)
            && s.confirmed.Keys <= t.confirmed.Keys
  {
    if order != [] {
      AllOverMakes(s, order[..|order| - 1], k, flights);
      AllOverAccounted(s, order[..|order| - 1], flights);
    }
  }

  /** A segment gets one flight at most, over a whole run, exactly if no form save takes
      effect on it while it has one. It gets one at all exactly if its decision is not a skip. */
  lemma OneFlightPerSegment(segments: seq<Segment>, ops: seq<Operation>, k: int, flights: Importer)
    ensures FlightsMade(segments, ops, |ops|, k, flights) <= 1
            <==> forall n :: 0 <= n < |ops| ==> !SecondFlight(Before(segments, ops, n, flights), ops[n], k)
    ensures FlightsMade(segments, ops, |ops|, k, flights) > 0
            <==> k in NonSkip(Run(Fresh(segments), ops, flights).confirmed)
  {
    assert ops[..|ops|] == ops;
    CountFlights(segments, ops, |ops|, k, flights);
  }

  lemma {:induction false} CountFlights(segments: seq<Segment>, ops: seq<Operation>, m: nat, k: int, flights: Importer)
    requires m <= |ops|
    ensures FlightsMade(segments, ops, m, k, flights) > 0 <==> k in NonSkip(Before(segments, ops, m, flights).confirmed)
    ensures FlightsMade(segments, ops, m, k, flights) <= 1
            <==> forall n :: 0 <= n < m ==> !SecondFlight(Before(segments, ops, n, flights), ops[n], k)
  {
    hide Accounted, Step, Before, Makes, SecondFlight, NonSkip, UncountedSave, Uncounted;
    if m == 0 {
      NoFlightYet(segments, ops, k, flights);
    } else {
      CountFlights(segments, ops, m - 1, k, flights);
      RunAccounted(segments, ops, m - 1, flights);
      BeforeNext(segments, ops, m - 1, flights);
      StepMakes(Before(segments, ops, m - 1, flights), ops[m - 1], k, flights);
    }
  }

  lemma NoFlightYet(segments: seq<Segment>, ops: seq<Operation>, k: int, flights: Importer)
    ensures k !in NonSkip(Before(segments, ops, 0, flights).confirmed)
  {
  }

  /** Two segments: the first skipped, then both saved through the form. The skip is
      overwritten, no import is counted, and the session goes on with nothing to decide. */
  lemma FormSavesOnly(a: Segment, b: Segment, flight: int, flights: Importer)
    ensures var skip, save, last := ConfirmOne(Some(0), true, None), FormSave(0, flight), FormSave(1, flight);
            var s, t := Run(Fresh([a, b]), [skip], flights), Run(Fresh([a, b]), [skip, save, last], flights);
            && s.confirmed == map[0 := Skipped]
            && t.confirmed == map[0 := Imported(flight), 1 := Imported(flight)] && t.imported == 0
            && Hanging(t)
  {
    var skip, save, last := ConfirmOne(Some(0), true, None), FormSave(0, flight), FormSave(1, flight);
    assert [skip][..0] == [] && [skip, save][..1] == [skip] && [skip, save, last][..2] == [skip, save];
    var s := Run(Fresh([a, b]), [skip], flights);
    assert Run(Fresh([a, b]), [], flights) == Fresh([a, b]);
    assert s == Step(Fresh([a, b]), skip, flights);
    assert s.confirmed.Keys == {0};
    assert |s.confirmed| == |s.confirmed.Keys|;
    assert Run(Fresh([a, b]), [skip, save], flights) == FormStep(s, 0, flight);
  }

  // ---------------------------------------------------------------- Confirm all

  /** What confirm-all makes of a segment nobody has decided yet. */
  ghost predicate LeftOver(seg: Segment) {
    !(seg.groundOnly && seg.groundRole == "") && (seg.matchedFlight.None? || seg.matchedFlight == Some(0))
  }

  lemma {:induction false} AllOverDecides(s: State, order: seq<int>, flights: Importer, k: int)
    requires 0 <= k < |s.segments|
    ensures var t := AllOver(s, order, flights);
            && (k in t.confirmed <==> k in s.confirmed || (k in order && !LeftOver(s.segments[k])))
            && (k in s.confirmed ==> t.confirmed[k] == s.confirmed[k])
            && (k in t.confirmed && k !in s.confirmed ==>
                  t.confirmed[k]
                  == if s.segments[k].groundOnly && s.segments[k].groundRole == ""
                     then Skipped else Imported(flights(k)))
  {
    if order != [] {
      var n := |order| - 1;
      assert order == order[..n] + [order[n]];
      AllOverDecides(s, order[..n], flights, k);
    }
  }

  /** After confirm-all only unmatched flights wait for a decision; matched segments
      are imported and unattached ground runs skipped. */
  lemma AllStepDecides(s: State, flights: Importer, k: int)
    requires s.live && 0 <= k < |s.segments|
    ensures var t := AllStep(s, flights);
            && (k !in t.confirmed <==> k !in s.confirmed && LeftOver(s.segments[k]))
            && (k in t.confirmed && k !in s.confirmed ==>
                  t.confirmed[k]
                  == if s.segments[k].groundOnly && s.segments[k].groundRole == ""
                     then Skipped else Imported(flights(k)))
  {
    OrderCovers(s.segments);
    AllOverDecides(s, ReviewOrder(s.segments), flights, k);
  }

  lemma {:induction false} NothingLeftToDo(s: State, order: seq<int>, flights: Importer)
    requires forall j :: 0 <= j < |s.segments| ==> j in s.confirmed || LeftOver(s.segments[j])
    ensures AllOver(s, order, flights) == s
  {
    if order != [] {
      var n := |order| - 1;
      NothingLeftToDo(s, order[..n], flights);
    }
  }

  /** Confirming all twice is confirming all once. */
  lemma AllStepIdempotent(s: State, flights: Importer)
    ensures AllStep(AllStep(s, flights), flights) == AllStep(s, flights)
  {
    var t := AllStep(s, flights);
    if t.live {
      OrderCovers(t.segments);
      forall k | 0 <= k < |s.segments|
        ensures k in t.confirmed || LeftOver(t.segments[k])
      {
        AllStepDecides(s, flights, k);
      }
      NothingLeftToDo(t, ReviewOrder(t.segments), flights);
    }
  }

  lemma AppendAscending(was: seq<int>, init: seq<int>, k: int, key: int -> real)
    requires Ascending(was, key) && Ascending(init + [k], key)
    requires forall j :: j in was ==> j in init
    ensures Ascending(was + [k], key)
  {
    forall i | 0 <= i < |was|
      ensures key(was[i]) <= key(k)
    {
      var x := was[i];
      assert x in was;
      var j :| 0 <= j < |init| && init[j] == x;
      assert key((init + [k])[j]) <= key((init + [k])[|init|]);
    }
  }

  lemma PrefixAscending(order: seq<int>, key: int -> real)
    requires Ascending(order, key) && order != []
    ensures Ascending(order[..|order| - 1], key)
  {
  }

  /** What confirm-all adds to the log follows the order it visits. */
  ghost predicate FollowsOrder(before: seq<int>, log: seq<int>, order: seq<int>, key: int -> real) {
    && before <= log && Ascending(log[|before|..], key)
    && forall j :: j in log[|before|..] ==> j in order
  }

  lemma {:induction false} NewImportsFollowOrder(s: State, order: seq<int>, flights: Importer, key: int -> real)
    requires Ascending(order, key)
    ensures FollowsOrder(s.log, AllOver(s, order, flights).log, order, key)
  {
    if order != [] {
      var n := |order| - 1;
      PrefixAscending(order, key);
      NewImportsFollowOrder(s, order[..n], flights, key);
      LogGrows(s.log, AllOver(s, order[..n], flights).log, order[..n], order[n], key);
      assert order == order[..n] + [order[n]];
    }
  }

  lemma LogGrows(before: seq<int>, log: seq<int>, init: seq<int>, k: int, key: int -> real)
    requires FollowsOrder(before, log, init, key) && Ascending(init + [k], key)
    ensures FollowsOrder(before, log, init + [k], key) && FollowsOrder(before, log + [k], init + [k], key)
  {
    var was := log[|before|..];
    AppendAscending(was, init, k, key);
    assert (log + [k])[|before|..] == was + [k];
  }

  /** Confirm-all imports every flight before any ground run that goes with one. */
  lemma FlightsBeforeGroundRuns(s: State, flights: Importer, i: nat, j: nat)
    requires s.live
    requires var t := AllStep(s, flights); |s.log| <= i < j < |t.log|
    ensures var t := AllStep(s, flights);
            && 0 <= t.log[i] < |s.segments| && 0 <= t.log[j] < |s.segments|
            && (s.segments[t.log[i]].groundOnly ==> s.segments[t.log[j]].groundOnly)
  {
    var order, key := ReviewOrder(s.segments), GroundLast(s.segments);
    OrderCovers(s.segments);
    SortAscending(Range(|s.segments|), key);
    NewImportsFollowOrder(s, order, flights, key);
    var t := AllStep(s, flights);
    var added := t.log[|s.log|..];
    assert added[i - |s.log|] == t.log[i] && added[j - |s.log|] == t.log[j];
    assert added[i - |s.log|] in added && added[j - |s.log|] in added;
  }
}
