/** What the envelope verdict does not depend on, where it must be negative, and
    the loaded CG it is asked about. */
module EnvelopeFacts {
  import opened Envelope

  // ---------------------------------------------------------------- Paths

  /** Crossings add up where two paths meet. */
  lemma {:induction false} CrossingsJoin(cg: real, weight: real, a: seq<Vertex>, v: Vertex, b: seq<Vertex>)
    ensures Crossings(cg, weight, a + [v] + b) == Crossings(cg, weight, a + [v]) + Crossings(cg, weight, [v] + b)
    decreases |b|
  {
    if b == [] {
      assert a + [v] + b == a + [v];
    } else {
      var n := |b| - 1;
      CrossingsJoin(cg, weight, a, v, b[..n]);
      var whole, tail := a + [v] + b, [v] + b;
      assert whole[..|whole| - 1] == a + [v] + b[..n];
      assert tail[..|tail| - 1] == [v] + b[..n];
      assert whole[|whole| - 2] == tail[|tail| - 2];
    }
  }

  lemma OneEdge(cg: real, weight: real, a: Vertex, b: Vertex)
    ensures Crossings(cg, weight, [a, b]) == if Crosses(cg, weight, a, b) then 1 else 0
  {
  }

  /** A closed polygon of two vertices or more: its last edge, then the rest. */
  lemma ClosingEdge(cg: real, weight: real, poly: seq<Vertex>)
    requires poly != []
    ensures Crossings(cg, weight, Closed(poly))
            == Crossings(cg, weight, [poly[|poly| - 1], poly[0]]) + Crossings(cg, weight, poly)
  {
    assert Closed(poly) == [poly[|poly| - 1]] + [poly[0]] + poly[1..];
    assert [poly[|poly| - 1]] + [poly[0]] == [poly[|poly| - 1], poly[0]];
    assert [poly[0]] + poly[1..] == poly;
    CrossingsJoin(cg, weight, [poly[|poly| - 1]], poly[0], poly[1..]);
  }

  // ---------------------------------------------------------------- Rotation and reversal

  /** Moving the first vertex to the end. */
  lemma RotateOnce(cg: real, weight: real, first: Vertex, rest: seq<Vertex>)
    ensures Crossings(cg, weight, Closed([first] + rest)) == Crossings(cg, weight, Closed(rest + [first]))
  {
    if rest == [] {
      assert [first] + rest == rest + [first];
    } else {
      var poly, turned := [first] + rest, rest + [first];
      ClosingEdge(cg, weight, poly);
      assert Closed(turned) == poly[..|poly| - 1] + [poly[|poly| - 1]] + [first];
      CrossingsJoin(cg, weight, poly[..|poly| - 1], poly[|poly| - 1], [first]);
      assert poly[..|poly| - 1] + [poly[|poly| - 1]] == poly;
      assert [poly[|poly| - 1]] + [first] == [poly[|poly| - 1], first];
    }
  }

  /** Starting the vertex list elsewhere changes nothing. */
  lemma {:induction false} RotationInvariant(cg: real, weight: real, a: seq<Vertex>, b: seq<Vertex>)
    ensures Inside(cg, weight, a + b) == Inside(cg, weight, b + a)
    decreases |a|
  {
    if a == [] {
      assert a + b == b + a;
    } else {
      hide Crossings, Closed;
      RotateOnce(cg, weight, a[0], a[1..] + b);
      RotationInvariant(cg, weight, a[1..], b + [a[0]]);
      MoveFirst(a, b);
    }
  }

  lemma MoveFirst(a: seq<Vertex>, b: seq<Vertex>)
    requires a != []
    ensures a + b == [a[0]] + (a[1..] + b)
    ensures (a[1..] + b) + [a[0]] == a[1..] + (b + [a[0]])
    ensures (b + [a[0]]) + a[1..] == b + a
  {
  }

  function Reverse(path: seq<Vertex>): (r: seq<Vertex>)
    ensures |r| == |path|
    ensures forall k :: 0 <= k < |path| ==> r[k] == path[|path| - 1 - k]
  {
    if path == [] then [] else Reverse(path[1..]) + [path[0]]
  }

  lemma {:induction false} ReverseCrossings(cg: real, weight: real, path: seq<Vertex>)
    ensures Crossings(cg, weight, Reverse(path)) == Crossings(cg, weight, path)
  {
    if |path| >= 2 {
      var a, b, rest := path[0], path[1], path[1..];
      var back := Reverse(rest);
      assert Reverse(path) == back + [a];
      ReverseCrossings(cg, weight, rest);
      hide Crossings, Reverse, Crosses;
      assert path == [a] + [b] + path[2..] && [b] + path[2..] == rest && [a] + [b] == [a, b];
      CrossingsJoin(cg, weight, [a], b, path[2..]);
      assert back == back[..|back| - 1] + [b];
      assert back + [a] == back[..|back| - 1] + [b] + [a] && [b] + [a] == [b, a];
      CrossingsJoin(cg, weight, back[..|back| - 1], b, [a]);
      OneEdge(cg, weight, a, b);
      OneEdge(cg, weight, b, a);
      CrossesSymmetric(cg, weight, a, b);
    }
  }

  /** Walking the polygon the other way round changes nothing. */
  lemma ReversalInvariant(cg: real, weight: real, poly: seq<Vertex>)
    ensures Inside(cg, weight, Reverse(poly)) == Inside(cg, weight, poly)
  {
    if poly != [] {
      ClosingEdge(cg, weight, poly);
      ClosingEdge(cg, weight, Reverse(poly));
      ReverseCrossings(cg, weight, poly);
      var a, b := poly[|poly| - 1], poly[0];
      OneEdge(cg, weight, a, b);
      OneEdge(cg, weight, b, a);
      CrossesSymmetric(cg, weight, a, b);
    }
  }

  // ---------------------------------------------------------------- A vertex on an edge

  /** A vertex on the closing edge. */
  lemma InsertOnClosingEdge(cg: real, weight: real, cycle: seq<Vertex>, m: Vertex, t: real)
    requires cycle != [] && Divides(cycle[|cycle| - 1], cycle[0], t, m)
    ensures Crossings(cg, weight, Closed([m] + cycle)) == Crossings(cg, weight, Closed(cycle))
  {
    hide Crossings, Closed, Divides;
    var last, first, rest := cycle[|cycle| - 1], cycle[0], cycle[1..];
    HalvesCross(cg, weight, last, first, t, m);
    ClosingEdge(cg, weight, cycle);
    ClosingEdge(cg, weight, [m] + cycle);
    assert [first] + rest == cycle && [m] + [first] + rest == [m] + cycle && [m] + [first] == [m, first];
    CrossingsJoin(cg, weight, [m], first, rest);
  }

  lemma HalvesCross(cg: real, weight: real, a: Vertex, b: Vertex, t: real, m: Vertex)
    requires Divides(a, b, t, m)
    ensures Crossings(cg, weight, [a, b]) == Crossings(cg, weight, [a, m]) + Crossings(cg, weight, [m, b])
  {
    DividedCrossing(cg, weight, a, b, t, m);
    OneEdge(cg, weight, a, m);
    OneEdge(cg, weight, m, b);
    OneEdge(cg, weight, a, b);
  }

  /** Adding a vertex on any edge, the closing one included, changes nothing. */
  lemma InsertionInvariant(cg: real, weight: real, a: seq<Vertex>, m: Vertex, b: seq<Vertex>, t: real)
    requires a + b != []
    requires var cycle := b + a; Divides(cycle[|cycle| - 1], cycle[0], t, m)
    ensures Inside(cg, weight, a + [m] + b) == Inside(cg, weight, a + b)
  {
    hide Inside, Divides;
    Regroup(a, m, b);
    RotationInvariant(cg, weight, a, b);
    RotationInvariant(cg, weight, a, [m] + b);
    ClosingEdgeInside(cg, weight, b + a, m, t);
  }

  lemma ClosingEdgeInside(cg: real, weight: real, cycle: seq<Vertex>, m: Vertex, t: real)
    requires cycle != [] && Divides(cycle[|cycle| - 1], cycle[0], t, m)
    ensures Inside(cg, weight, [m] + cycle) == Inside(cg, weight, cycle)
  {
    InsertOnClosingEdge(cg, weight, cycle, m, t);
  }

  lemma Regroup(a: seq<Vertex>, m: Vertex, b: seq<Vertex>)
    ensures a + [m] + b == a + ([m] + b)
    ensures ([m] + b) + a == [m] + (b + a)
  {
  }

  // ---------------------------------------------------------------- Bounding box

  predicate Above(weight: real, v: Vertex) {
    v.weight > weight
  }

  /** If the ray starts left of everything, it is crossed by every straddling edge,
      and those are even in number around a cycle. */
  lemma {:induction false} LeftOfAll(cg: real, weight: real, path: seq<Vertex>)
    requires path != [] && forall v :: v in path ==> cg < v.arm
    ensures Crossings(cg, weight, path) % 2
            == if Above(weight, path[0]) == Above(weight, path[|path| - 1]) then 0 else 1
  {
    if |path| >= 2 {
      var n := |path| - 1;
      LeftOfAll(cg, weight, path[..n]);
      var a, b := path[n - 1], path[n];
      if Straddles(weight, a, b) {
        var lo := if a.arm < b.arm then a.arm else b.arm;
        ArmBetween(weight, a, b, lo, a.arm + b.arm - lo);
      }
    }
  }

  lemma {:induction false} NothingCrossed(cg: real, weight: real, path: seq<Vertex>)
    requires || (forall v :: v in path ==> v.arm <= cg)
             || (forall v :: v in path ==> v.weight <= weight)
             || (forall v :: v in path ==> weight < v.weight)
    ensures Crossings(cg, weight, path) == 0
  {
    if |path| >= 2 {
      var n := |path| - 1;
      NothingCrossed(cg, weight, path[..n]);
      var a, b := path[n - 1], path[n];
      assert a in path && b in path;
      if Straddles(weight, a, b) {
        var lo := if a.arm < b.arm then a.arm else b.arm;
        ArmBetween(weight, a, b, lo, a.arm + b.arm - lo);
      }
    }
  }

  /** Only points inside the bounding box are accepted; not its aft or upper side. */
  lemma AcceptedInBox(cg: real, weight: real, poly: seq<Vertex>)
    requires Inside(cg, weight, poly)
    ensures exists v :: v in poly && v.arm <= cg
    ensures exists v :: v in poly && cg < v.arm
    ensures exists v :: v in poly && v.weight <= weight
    ensures exists v :: v in poly && weight < v.weight
  {
    var path := Closed(poly);
    assert forall v :: v in path ==> v in poly;
    if forall v :: v in poly ==> cg < v.arm {
      LeftOfAll(cg, weight, path);
    }
    if || (forall v :: v in poly ==> v.arm <= cg)
       || (forall v :: v in poly ==> v.weight <= weight)
       || (forall v :: v in poly ==> weight < v.weight)
    {
      NothingCrossed(cg, weight, path);
    }
  }

  // ---------------------------------------------------------------- Rectangles

  function Rectangle(fwd: real, aft: real, low: real, mtow: real): seq<Vertex> {
    [Vertex(fwd, low), Vertex(aft, low), Vertex(aft, mtow), Vertex(fwd, mtow)]
  }

  /** The limits check used when no envelope is drawn. */
  predicate WithinLimits(cg: real, weight: real, mtow: real, fwd: real, aft: real) {
    weight <= mtow && fwd <= cg <= aft
  }

  lemma FourEdges(cg: real, weight: real, a: Vertex, b: Vertex, c: Vertex, d: Vertex)
    ensures Crossings(cg, weight, Closed([a, b, c, d]))
            == Crossings(cg, weight, [d, a]) + Crossings(cg, weight, [a, b])
               + Crossings(cg, weight, [b, c]) + Crossings(cg, weight, [c, d])
  {
    assert Closed([a, b, c, d]) == [d] + [a] + [b, c, d];
    assert [a] + [b, c, d] == [a] + [b] + [c, d];
    assert [b] + [c, d] == [b] + [c] + [d];
    assert [d] + [a] == [d, a] && [a] + [b] == [a, b] && [b] + [c] == [b, c] && [c] + [d] == [c, d];
    CrossingsJoin(cg, weight, [d], a, [b, c, d]);
    CrossingsJoin(cg, weight, [a], b, [c, d]);
    CrossingsJoin(cg, weight, [b], c, [d]);
  }

  lemma RectangleInside(cg: real, weight: real, fwd: real, aft: real, low: real, mtow: real)
    requires fwd < aft && low < mtow
    ensures Inside(cg, weight, Rectangle(fwd, aft, low, mtow)) <==> fwd <= cg < aft && low <= weight < mtow
  {
    var a, b, c, d := Vertex(fwd, low), Vertex(aft, low), Vertex(aft, mtow), Vertex(fwd, mtow);
    FourEdges(cg, weight, a, b, c, d);
    OneEdge(cg, weight, d, a);
    OneEdge(cg, weight, a, b);
    OneEdge(cg, weight, b, c);
    OneEdge(cg, weight, c, d);
    if Straddles(weight, b, c) {
      OnLine(weight, b, c, 0.0);
      OnLine(weight, d, a, 0.0);
    }
  }

  /** Drawing a rectangle and giving its limits agree except on the aft and the upper
      boundary and below the rectangle, where only the limits accept. */
  lemma RectangleAgreesWithLimits(cg: real, weight: real, fwd: real, aft: real, low: real, mtow: real)
    requires fwd < aft && low < mtow
    ensures Inside(cg, weight, Rectangle(fwd, aft, low, mtow))
            <==> WithinLimits(cg, weight, mtow, fwd, aft) && cg != aft && weight != mtow && low <= weight
    ensures WithinLimits(cg, weight, mtow, fwd, aft) <==> weight <= mtow && fwd <= cg && cg <= aft
  {
    RectangleInside(cg, weight, fwd, aft, low, mtow);
  }

  // ---------------------------------------------------------------- Loaded CG

  datatype Station = Station(isFuel: bool, arm: real, value: real)

  /** Kilograms at a station; fuel is entered by volume. */
  function StationWeight(st: Station, kgPerUnit: real): real {
    if st.isFuel then st.value * kgPerUnit else st.value
  }

  /** The moment of a weight at an arm. */
  function Moment(weight: real, arm: real): real {
    weight * arm
  }

  function TotalWeight(stations: seq<Station>, kgPerUnit: real, emptyWeight: real): real {
    if stations == [] then emptyWeight
    else
      TotalWeight(stations[..|stations| - 1], kgPerUnit, emptyWeight)
      + StationWeight(stations[|stations| - 1], kgPerUnit)
  }

  function TotalMoment(stations: seq<Station>, kgPerUnit: real, emptyWeight: real, emptyArm: real): real {
    if stations == [] then Moment(emptyWeight, emptyArm)
    else
      var st := stations[|stations| - 1];
      TotalMoment(stations[..|stations| - 1], kgPerUnit, emptyWeight, emptyArm)
      + Moment(StationWeight(st, kgPerUnit), st.arm)
  }

  ghost predicate ArmsWithin(stations: seq<Station>, emptyArm: real, lo: real, hi: real) {
    lo <= emptyArm <= hi && forall st :: st in stations ==> lo <= st.arm <= hi && st.value >= 0.0
  }

  /** The moment of a weight whose arms all lie between lo and hi. */
  ghost predicate Bounded(weight: real, moment: real, lo: real, hi: real) {
    lo * weight <= moment <= hi * weight
  }

  lemma AddLoad(weight: real, moment: real, w: real, m: real, lo: real, hi: real)
    requires Bounded(weight, moment, lo, hi) && Bounded(w, m, lo, hi)
    ensures Bounded(weight + w, moment + m, lo, hi)
  {
  }

  lemma OneLoad(w: real, arm: real, lo: real, hi: real)
    requires w >= 0.0 && lo <= arm <= hi
    ensures Bounded(w, Moment(w, arm), lo, hi)
  {
  }

  lemma {:induction false} MomentBounds(stations: seq<Station>, kgPerUnit: real, emptyWeight: real, emptyArm: real,
                                        lo: real, hi: real)
    requires ArmsWithin(stations, emptyArm, lo, hi) && emptyWeight >= 0.0 && kgPerUnit >= 0.0
    ensures TotalWeight(stations, kgPerUnit, emptyWeight) >= emptyWeight
    ensures Bounded(TotalWeight(stations, kgPerUnit, emptyWeight),
                    TotalMoment(stations, kgPerUnit, emptyWeight, emptyArm), lo, hi)
  {
    hide Bounded, Moment;
    if stations == [] {
      OneLoad(emptyWeight, emptyArm, lo, hi);
    } else {
      var init, st := stations[..|stations| - 1], stations[|stations| - 1];
      MomentBounds(init, kgPerUnit, emptyWeight, emptyArm, lo, hi);
      assert st in stations;
      LoadNonNegative(st, kgPerUnit);
      hide StationWeight;
      var w := StationWeight(st, kgPerUnit);
      OneLoad(w, st.arm, lo, hi);
      AddLoad(TotalWeight(init, kgPerUnit, emptyWeight), TotalMoment(init, kgPerUnit, emptyWeight, emptyArm), w,
              Moment(w, st.arm), lo, hi);
      LastStation(stations, kgPerUnit, emptyWeight, emptyArm);
      hide TotalWeight, TotalMoment;
    }
  }

  lemma LastStation(stations: seq<Station>, kgPerUnit: real, emptyWeight: real, emptyArm: real)
    requires stations != []
    ensures var init, st := stations[..|stations| - 1], stations[|stations| - 1];
            && TotalWeight(stations, kgPerUnit, emptyWeight)
               == TotalWeight(init, kgPerUnit, emptyWeight) + StationWeight(st, kgPerUnit)
            && TotalMoment(stations, kgPerUnit, emptyWeight, emptyArm)
               == TotalMoment(init, kgPerUnit, emptyWeight, emptyArm) + Moment(StationWeight(st, kgPerUnit), st.arm)
  {
  }

  lemma LoadNonNegative(st: Station, kgPerUnit: real)
    requires st.value >= 0.0 && kgPerUnit >= 0.0
    ensures StationWeight(st, kgPerUnit) >= 0.0
  {
  }

  /** Moment over weight, 0 without weight. */
  function CentreOf(moment: real, weight: real): (cg: real)
    ensures weight != 0.0 ==> cg * weight == moment
    ensures weight == 0.0 ==> cg == 0.0
  {
    if weight == 0.0 then 0.0
    else
      var q := moment / weight;
      assert q * weight == moment;
      q
  }

  /** The loaded weight and CG: the CG balances the moment, and lies between the
      foremost and the aftmost arm that carries a load. */
  method LoadedCG(stations: seq<Station>, kgPerUnit: real, emptyWeight: real, emptyArm: real)
    returns (weight: real, cg: real)
    ensures weight == TotalWeight(stations, kgPerUnit, emptyWeight)
    ensures weight != 0.0 ==> cg * weight == TotalMoment(stations, kgPerUnit, emptyWeight, emptyArm)
    ensures weight == 0.0 ==> cg == 0.0
    ensures emptyWeight >= 0.0 && kgPerUnit >= 0.0 && weight > 0.0 ==>
              forall lo, hi :: ArmsWithin(stations, emptyArm, lo, hi) ==> lo <= cg <= hi
  {
    hide Bounded, ArmsWithin, StationWeight;
    weight := emptyWeight;
    var moment := emptyWeight * emptyArm;
    for i := 0 to |stations|
      invariant weight == TotalWeight(stations[..i], kgPerUnit, emptyWeight)
      invariant moment == TotalMoment(stations[..i], kgPerUnit, emptyWeight, emptyArm)
    {
      assert stations[..i + 1][..i] == stations[..i];
      var w := StationWeight(stations[i], kgPerUnit);
      weight := weight + w;
      moment := moment + w * stations[i].arm;
    }
    assert stations[..|stations|] == stations;
    hide TotalWeight, TotalMoment, CentreOf;
    cg := CentreOf(moment, weight);
    forall lo, hi | ArmsWithin(stations, emptyArm, lo, hi) && emptyWeight >= 0.0 && kgPerUnit >= 0.0 && weight > 0.0
      ensures lo <= cg <= hi
    {
      MomentBounds(stations, kgPerUnit, emptyWeight, emptyArm, lo, hi);
      MeanBounds(moment, weight, cg, lo, hi);
    }
  }

  lemma MeanBounds(moment: real, weight: real, cg: real, lo: real, hi: real)
    requires weight > 0.0 && cg * weight == moment && Bounded(weight, moment, lo, hi)
    ensures lo <= cg <= hi
  {
  }

  /** The verdict of wb_entry: the drawn envelope if it has three points, else the limits. */
  method InEnvelope(cg: real, weight: real, points: seq<seq<Coord>>, mtow: real, fwd: real, aft: real)
    returns (ok: bool)
    ensures |points| < 3 ==> (ok <==> weight <= mtow && fwd <= cg && cg <= aft)
    ensures |points| >= 3 && ok ==> StoredAround(points, cg, weight)
    ensures |points| >= 3 && ParseVertices(points).Some? ==> ok == Inside(cg, weight, ParseVertices(points).value)
    ensures forall f, a, low, top :: StoredRectangle(points, f, a, low, top) ==>
              (ok <==> f <= cg < a && low <= weight < top)
  {
    if |points| >= 3 {
      ok := PointInPolygon(cg, weight, points);
      if ok {
        AcceptedAround(cg, weight, points);
      }
      forall f, a, low, top | StoredRectangle(points, f, a, low, top)
        ensures ok <==> f <= cg < a && low <= weight < top
      {
        StoredRectangleInside(cg, weight, points, f, a, low, top);
      }
    } else {
      ok := WithinLimits(cg, weight, mtow, fwd, aft);
    }
  }

  /** Every stored entry is a pair of finite numbers, and the point is within their box:
      the first of each is an arm, the second a weight. */
  ghost predicate StoredAround(points: seq<seq<Coord>>, cg: real, weight: real) {
    && (forall k :: 0 <= k < |points| ==> |points[k]| >= 2 && points[k][0].Num? && points[k][1].Num?)
    && (exists k :: 0 <= k < |points| && points[k][0].value <= cg)
    && (exists k :: 0 <= k < |points| && cg < points[k][0].value)
    && (exists k :: 0 <= k < |points| && points[k][1].value <= weight)
    && (exists k :: 0 <= k < |points| && weight < points[k][1].value)
  }

  /** The stored corners of a rectangle, as [arm, weight] pairs. */
  ghost predicate StoredRectangle(points: seq<seq<Coord>>, fwd: real, aft: real, low: real, top: real) {
    && fwd < aft && low < top
    && points == [[Num(fwd), Num(low)], [Num(aft), Num(low)], [Num(aft), Num(top)], [Num(fwd), Num(top)]]
  }

  lemma AcceptedAround(cg: real, weight: real, points: seq<seq<Coord>>)
    requires ParseVertices(points).Some? && Inside(cg, weight, ParseVertices(points).value)
    ensures StoredAround(points, cg, weight)
  {
    var poly := ParseVertices(points).value;
    VerticesAsStored(points);
    AcceptedInBox(cg, weight, poly);
    hide Inside, ParseVertices;
    var a :| a in poly && a.arm <= cg;
    var b :| b in poly && cg < b.arm;
    var c :| c in poly && c.weight <= weight;
    var d :| d in poly && weight < d.weight;
    var i :| 0 <= i < |poly| && poly[i] == a;
    var j :| 0 <= j < |poly| && poly[j] == b;
    var k :| 0 <= k < |poly| && poly[k] == c;
    var m :| 0 <= m < |poly| && poly[m] == d;
    assert points[i][0].value <= cg < points[j][0].value && points[k][1].value <= weight < points[m][1].value;
  }

  lemma StoredRectangleInside(cg: real, weight: real, points: seq<seq<Coord>>, fwd: real, aft: real, low: real,
                              top: real)
    requires StoredRectangle(points, fwd, aft, low, top)
    ensures ParseVertices(points).Some?
    ensures Inside(cg, weight, ParseVertices(points).value) <==> fwd <= cg < aft && low <= weight < top
  {
    VerticesAsStored(points);
    assert ParseVertices(points).value == Rectangle(fwd, aft, low, top);
    RectangleInside(cg, weight, fwd, aft, low, top);
  }

  /** One more station adds what is entered there, in kilograms, or the weight of the
      volume if it holds fuel; and that weight at the station's arm. Without stations
      there is the empty aircraft. */
  lemma LoadAdds(stations: seq<Station>, st: Station, kgPerUnit: real, emptyWeight: real, emptyArm: real)
    ensures TotalWeight([], kgPerUnit, emptyWeight) == emptyWeight
    ensures TotalMoment([], kgPerUnit, emptyWeight, emptyArm) == emptyWeight * emptyArm
    ensures var before, after := TotalWeight(stations, kgPerUnit, emptyWeight),
                                 TotalWeight(stations + [st], kgPerUnit, emptyWeight);
            var was, now := TotalMoment(stations, kgPerUnit, emptyWeight, emptyArm),
                            TotalMoment(stations + [st], kgPerUnit, emptyWeight, emptyArm);
            && (st.isFuel ==> after == before + st.value * kgPerUnit && now == was + st.value * kgPerUnit * st.arm)
            && (!st.isFuel ==> after == before + st.value && now == was + st.value * st.arm)
  {
    LastStation(stations + [st], kgPerUnit, emptyWeight, emptyArm);
    assert (stations + [st])[..|stations|] == stations;
  }
}
