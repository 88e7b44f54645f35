/** The GPS review: deciding the segments of one upload, by confirming or skipping
    one, confirming all (_gps_confirm_segment, gps_import_confirm_one,
    gps_import_confirm_all), or saving the flight form that the page prefills
    (gps_import_prefill_segment, and the save in app/flights/routes.py). */
module Review {
  import opened Options
  import opened StableSort

  /** What the review page knows about a segment. */
  datatype Segment = Segment(groundOnly: bool, groundRole: string, matchedFlight: Option<int>, ambiguous: bool)

  /** An imported segment keeps its flight's id, 0 when it has none. */
  datatype Decision = Skipped | Imported(flight: int)

  /** The session state and the batch record. `log` lists the imports made, in order. */
  datatype State = State(
    live: bool,
    segments: seq<Segment>,
    confirmed: map<int, Decision>,
    imported: nat,
    log: seq<int>)

  datatype Operation =
    | ConfirmOne(seg: Option<int>, skip: bool, picked: Option<int>)
    | ConfirmAll
    | FormSave(index: int, flight: int)

  /** What the import of each segment returns, from code outside this model. */
  type Importer = int -> int

  // ---------------------------------------------------------------- Specification

  predicate HasMatch(seg: Segment) {
    seg.matchedFlight.Some? && seg.matchedFlight.value != 0
  }

  /** Import one segment and record it. */
  function Import(s: State, k: int, flights: Importer): State {
    s.(confirmed := s.confirmed[k := Imported(flights(k))], imported := s.imported + 1, log := s.log + [k])
  }

  function Skip(s: State, k: int): State {
    s.(confirmed := s.confirmed[k := Skipped])
  }

  /** A segment of a live session that awaits its decision. */
  predicate Undecided(s: State, seg: Option<int>) {
    s.live && seg.Some? && 0 <= seg.value < |s.segments| && seg.value !in s.confirmed
  }

  /** Every segment is decided: the session ends. */
  function EndIfDone(s: State): State {
    if |s.confirmed| == |s.segments| then s.(live := false) else s
  }

  /** The human's choice among several candidates replaces the top-scored one. */
  function Pick(s: State, k: int, picked: Option<int>): State
    requires 0 <= k < |s.segments|
  {
    if s.segments[k].ambiguous then s.(segments := s.segments[k := s.segments[k].(matchedFlight := picked)]) else s
  }

  function OneStep(s: State, seg: Option<int>, skip: bool, picked: Option<int>, flights: Importer): State {
    if !s.live || s.segments == [] || seg.None? || !(0 <= seg.value < |s.segments|) || seg.value in s.confirmed then s
    else if skip then EndIfDone(Skip(s, seg.value))
    else EndIfDone(Import(Pick(s, seg.value, picked), seg.value, flights))
  }

  /** Confirm-all at one segment: it may be decided already, a ground run that goes
      with no flight, without a match, or imported. */
  function AllAt(s: State, k: int, flights: Importer): State {
    if !(0 <= k < |s.segments|) || k in s.confirmed then s
    else if s.segments[k].groundOnly && s.segments[k].groundRole == "" then Skip(s, k)
    else if !HasMatch(s.segments[k]) then s
    else Import(s, k, flights)
  }

  function AllOver(s: State, order: seq<int>, flights: Importer): (t: State)
    ensures t.segments == s.segments && t.live == s.live
  {
    if order == [] then s
    else
      var k := order[|order| - 1];
      AllAt(AllOver(s, order[..|order| - 1], flights), k, flights)
  }

  function GroundLast(segments: seq<Segment>): int -> real {
    (k: int) => if 0 <= k < |segments| && segments[k].groundOnly then 1.0 else 0.0
  }

  function Range(n: nat): (r: seq<int>)
    ensures |r| == n && forall k :: 0 <= k < n ==> r[k] == k
  {
    seq(n, k => k)
  }

  /** Flights first, then ground runs. */
  function ReviewOrder(segments: seq<Segment>): seq<int> {
    SortBy(Range(|segments|), GroundLast(segments))
  }

  lemma OrderCovers(segments: seq<Segment>)
    ensures forall k :: k in ReviewOrder(segments) <==> 0 <= k < |segments|
  {
    SortPermutes(Range(|segments|), GroundLast(segments));
    forall k
      ensures k in Range(|segments|) <==> 0 <= k < |segments|
    {
      if 0 <= k < |segments| { assert Range(|segments|)[k] == k; }
    }
  }

  function AllStep(s: State, flights: Importer): State {
    if !s.live then s
    else
      EndIfDone(AllOver(s, ReviewOrder(s.segments), flights))
  }

  /** Saving the flight form overwrites the decision on its segment, whatever it was,
      without counting an import or looking whether all is decided. The form's index
      comes from a hidden field. */
  function FormStep(s: State, k: int, flight: int): State {
    if s.live then s.(confirmed := s.confirmed[k := Imported(flight)]) else s
  }

  function Step(s: State, op: Operation, flights: Importer): State {
    match op
    case ConfirmOne(seg, skip, picked) => OneStep(s, seg, skip, picked, flights)
    case ConfirmAll => AllStep(s, flights)
    case FormSave(k, flight) => FormStep(s, k, flight)
  }

  function Run(s: State, ops: seq<Operation>, flights: Importer): State {
    if ops == [] then s
    else Step(Run(s, ops[..|ops| - 1], flights), ops[|ops| - 1], flights)
  }

  function Fresh(segments: seq<Segment>): State {
    State(true, segments, map[], 0, [])
  }

  // ---------------------------------------------------------------- The code

  class Session {
    var live: bool
    var segments: seq<Segment>
    var confirmed: map<int, Decision>
    var imported: nat
    ghost var log: seq<int>

    ghost function Now(): State
      reads this
    {
      State(live, segments, confirmed, imported, log)
    }

    constructor (segments: seq<Segment>)
      ensures Now() == Fresh(segments)
    {
      this.segments := segments;
      live, confirmed, imported, log := true, map[], 0, [];
    }

    method ConfirmSegment(k: int, flights: Importer)
      modifies this
      ensures Now() == Import(old(Now()), k, flights)
    {
      var flight := flights(k);
      imported := imported + 1;
      confirmed := confirmed[k := Imported(flight)];
      log := log + [k];
    }

    method Cleanup()
      modifies this`live
      ensures !live
    {
      live := false;
    }

    /** Decides the segment as asked, or does nothing if it is missing, decided
        already, or the session is over; ends the session when the counts agree. */
    method DoConfirmOne(seg: Option<int>, skip: bool, picked: Option<int>, flights: Importer)
      modifies this
      ensures Now() == OneStep(old(Now()), seg, skip, picked, flights)
      ensures Undecided(old(Now()), seg) ==>
                && confirmed == old(confirmed)[seg.value := if skip then Skipped else Imported(flights(seg.value))]
                && imported == old(imported) + (if skip then 0 else 1)
                && (live <==> |confirmed| != |segments|)
      ensures !Undecided(old(Now()), seg) ==> Now() == old(Now())
    {
      if !live || |segments| == 0 || seg.None? {
        return;
      }
      var k := seg.value;
      if k < 0 || k >= |segments| || k in confirmed {
        return;
      }
      if skip {
        confirmed := confirmed[k := Skipped];
      } else {
        if segments[k].ambiguous {
          segments := segments[k := segments[k].(matchedFlight := picked)];
        }
        ConfirmSegment(k, flights);
      }
      if |confirmed| == |segments| {
        Cleanup();
      }
    }

    /** Decides segment k, again if need be, and leaves the counter and the session alone. */
    method DoFormSave(k: int, flight: int)
      modifies this`confirmed
      ensures Now() == FormStep(old(Now()), k, flight)
      ensures live ==> confirmed == old(confirmed)[k := Imported(flight)]
      ensures !live ==> confirmed == old(confirmed)
      ensures live == old(live) && imported == old(imported) && segments == old(segments) && log == old(log)
    {
      if live {
        confirmed := confirmed[k := Imported(flight)];
      }
    }

    method DoConfirmAll(flights: Importer)
      modifies this
      ensures Now() == AllStep(old(Now()), flights)
    {
      if !live {
        return;
      }
      OrderCovers(segments);
      var order := ReviewOrder(segments);
      for i := 0 to |order|
        invariant segments == old(segments) && live
        invariant Now() == AllOver(old(Now()), order[..i], flights)
      {
        assert order[..i + 1][..i] == order[..i];
        assert order[i] in order;
        var k := order[i];
        if k in confirmed {
          continue;
        }
        if segments[k].groundOnly && segments[k].groundRole == "" {
          confirmed := confirmed[k := Skipped];
          continue;
        }
        if !HasMatch(segments[k]) {
          continue;
        }
        ConfirmSegment(k, flights);
      }
      assert order[..|order|] == order;
      if |confirmed| == |segments| {
        Cleanup();
      }
    }
  }
}
