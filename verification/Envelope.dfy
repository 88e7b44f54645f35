/** The mass-and-balance envelope check of app/aircraft/routes.py:
    _point_in_polygon, and the CG computation and verdict of wb_entry. */
module Envelope {
  import opened Options

  datatype Vertex = Vertex(arm: real, weight: real)

  /** A stored coordinate, as float() takes it. */
  datatype Coord = Num(value: real) | NonFinite | NotANumber

  // ---------------------------------------------------------------- Crossings

  predicate Straddles(weight: real, a: Vertex, b: Vertex) {
    (a.weight > weight) != (b.weight > weight)
  }

  /** Where the edge meets the horizontal line at `weight`. */
  function ArmAt(weight: real, a: Vertex, b: Vertex): real
    requires a.weight != b.weight
  {
    (b.arm - a.arm) * (weight - a.weight) / (b.weight - a.weight) + a.arm
  }

  /** The ray from (cg, weight) towards greater arms crosses the edge. */
  predicate Crosses(cg: real, weight: real, a: Vertex, b: Vertex) {
    Straddles(weight, a, b) && cg < ArmAt(weight, a, b)
  }

  /** How many edges of an open path the ray crosses. */
  function Crossings(cg: real, weight: real, path: seq<Vertex>): nat {
    if |path| < 2 then 0
    else
      var n := |path| - 1;
      Crossings(cg, weight, path[..n]) + if Crosses(cg, weight, path[n - 1], path[n]) then 1 else 0
  }

  /** The polygon as a closed path: from its last vertex round to its last vertex. */
  function Closed(poly: seq<Vertex>): seq<Vertex> {
    if poly == [] then [] else [poly[|poly| - 1]] + poly
  }

  /** Reference definition: an odd number of edges of the closed cycle is crossed. */
  predicate Inside(cg: real, weight: real, poly: seq<Vertex>) {
    Crossings(cg, weight, Closed(poly)) % 2 == 1
  }

  /** A stored entry: an arm, then a weight, both finite. */
  predicate Readable(p: seq<Coord>) {
    |p| >= 2 && p[0].Num? && p[1].Num?
  }

  /** All entries are readable, or none is used. */
  function ParseVertices(points: seq<seq<Coord>>): Option<seq<Vertex>> {
    if points == [] then Some([])
    else
      var p, rest := points[0], ParseVertices(points[1..]);
      if !Readable(p) || rest.None? then None else Some([Vertex(p[0].value, p[1].value)] + rest.value)
  }

  /** One vertex for each entry, in order: its first number is the arm, its second the
      weight. None exactly if some entry does not start with two finite numbers. */
  lemma {:induction false} VerticesAsStored(points: seq<seq<Coord>>)
    ensures var poly := ParseVertices(points);
            && (poly.None? <==>
                  exists k :: 0 <= k < |points| && !(|points[k]| >= 2 && points[k][0].Num? && points[k][1].Num?))
            && (poly.Some? ==>
                  && |poly.value| == |points|
                  && forall k :: 0 <= k < |points| ==>
                       && |points[k]| >= 2 && points[k][0].Num? && points[k][1].Num?
                       && poly.value[k].arm == points[k][0].value && poly.value[k].weight == points[k][1].value)
  {
    if points != [] {
      var p, tail := points[0], points[1..];
      VerticesAsStored(tail);
      assert forall k :: 0 < k < |points| ==> points[k] == tail[k - 1];
      if ParseVertices(tail).None? {
        var k :| 0 <= k < |tail| && !(|tail[k]| >= 2 && tail[k][0].Num? && tail[k][1].Num?);
        assert points[k + 1] == tail[k];
      }
    }
  }

  method PointInPolygon(cg: real, weight: real, points: seq<seq<Coord>>) returns (inside: bool)
    ensures inside == match ParseVertices(points)
                      case None => false
                      case Some(poly) => Inside(cg, weight, poly)
  {
    var parsed := ParseVertices(points);
    if parsed.None? {
      return false;
    }
    var coords := parsed.value;
    inside := false;
    var j := |coords| - 1;
    for i := 0 to |coords|
      invariant j == if i == 0 then |coords| - 1 else i - 1
      invariant inside == (Crossings(cg, weight, Closed(coords)[..i + if coords == [] then 0 else 1]) % 2 == 1)
    {
      assert Closed(coords)[i] == coords[j] && Closed(coords)[i + 1] == coords[i];
      assert Closed(coords)[..i + 2][..i + 1] == Closed(coords)[..i + 1];
      CrossesSymmetric(cg, weight, coords[i], coords[j]);
      if Crosses(cg, weight, coords[i], coords[j]) {
        inside := !inside;
      }
      j := i;
    }
    assert Closed(coords)[..|Closed(coords)|] == Closed(coords);
  }

  // ---------------------------------------------------------------- Geometry of one edge

  lemma Quotient(p: real, q: real, r: real)
    requires q != 0.0 && r * q == p
    ensures p / q == r
  {
  }

  lemma NonNegative(x: real, y: real)
    requires x >= 0.0 && y >= 0.0
    ensures x * y >= 0.0
  {
  }

  /** Any description of the line through a and b gives the same meeting point. */
  lemma OnLine(weight: real, a: Vertex, b: Vertex, slope: real)
    requires a.weight != b.weight && b.arm - a.arm == slope * (b.weight - a.weight)
    ensures ArmAt(weight, a, b) == a.arm + slope * (weight - a.weight)
  {
    var u, dy := weight - a.weight, b.weight - a.weight;
    assert (slope * u) * dy == (slope * dy) * u;
    Quotient((b.arm - a.arm) * u, dy, slope * u);
  }

  lemma SlopeOf(a: Vertex, b: Vertex) returns (slope: real)
    requires a.weight != b.weight
    ensures b.arm - a.arm == slope * (b.weight - a.weight)
  {
    slope := (b.arm - a.arm) / (b.weight - a.weight);
  }

  lemma CrossesSymmetric(cg: real, weight: real, a: Vertex, b: Vertex)
    ensures Crosses(cg, weight, a, b) == Crosses(cg, weight, b, a)
  {
    if Straddles(weight, a, b) {
      hide ArmAt;
      var slope := SlopeOf(a, b);
      OnLine(weight, a, b, slope);
      OnLine(weight, b, a, slope);
      assert slope * (weight - a.weight) == slope * (b.weight - a.weight) + slope * (weight - b.weight);
    }
  }

  /** Point m divides the edge from a to b in the ratio t. */
  ghost predicate Divides(a: Vertex, b: Vertex, t: real, m: Vertex) {
    && 0.0 <= t <= 1.0
    && m.arm == a.arm + t * (b.arm - a.arm)
    && m.weight == a.weight + t * (b.weight - a.weight)
  }

  lemma DividedWeights(a: Vertex, b: Vertex, t: real, m: Vertex)
    requires Divides(a, b, t, m)
    ensures a.weight <= b.weight ==> a.weight <= m.weight <= b.weight
    ensures b.weight <= a.weight ==> b.weight <= m.weight <= a.weight
  {
    var d := b.weight - a.weight;
    if d >= 0.0 {
      NonNegative(t, d);
      NonNegative(1.0 - t, d);
    } else {
      NonNegative(t, -d);
      NonNegative(1.0 - t, -d);
    }
  }

  /** A vertex on an edge splits its crossing between the two halves. */
  lemma DividedCrossing(cg: real, weight: real, a: Vertex, b: Vertex, t: real, m: Vertex)
    requires Divides(a, b, t, m)
    ensures Crosses(cg, weight, a, b) <==> Crosses(cg, weight, a, m) || Crosses(cg, weight, m, b)
    ensures !(Crosses(cg, weight, a, m) && Crosses(cg, weight, m, b))
  {
    DividedWeights(a, b, t, m);
    if Straddles(weight, a, b) {
      var slope := SlopeOf(a, b);
      OnLine(weight, a, b, slope);
      var dy := b.weight - a.weight;
      assert t * (slope * dy) == slope * (t * dy);
      assert m.arm - a.arm == slope * (m.weight - a.weight);
      if Straddles(weight, a, m) {
        OnLine(weight, a, m, slope);
      } else {
        assert b.arm - m.arm == slope * (b.weight - m.weight);
        OnLine(weight, m, b, slope);
        assert slope * (weight - m.weight) == slope * (weight - a.weight) - slope * (m.weight - a.weight);
      }
    }
  }

  /** A weighted mean lies between its terms. */
  lemma MixBetween(t: real, p: real, q: real, lo: real, hi: real)
    requires 0.0 <= t <= 1.0 && lo <= p <= hi && lo <= q <= hi
    ensures lo <= t * p + (1.0 - t) * q <= hi
  {
    NonNegative(t, p - lo);
    NonNegative(1.0 - t, q - lo);
    NonNegative(t, hi - p);
    NonNegative(1.0 - t, hi - q);
  }

  lemma Fraction(u: real, d: real) returns (t: real)
    requires 0.0 <= u <= d && d > 0.0
    ensures 0.0 <= t <= 1.0 && t * d == u
  {
    t := u / d;
  }

  /** The meeting point lies between the arms of the edge. */
  lemma ArmBetween(weight: real, a: Vertex, b: Vertex, lo: real, hi: real)
    requires Straddles(weight, a, b) && lo <= a.arm <= hi && lo <= b.arm <= hi
    ensures lo <= ArmAt(weight, a, b) <= hi
  {
    var slope := SlopeOf(a, b);
    OnLine(weight, a, b, slope);
    var t: real;
    if a.weight < b.weight {
      t := Fraction(weight - a.weight, b.weight - a.weight);
    } else {
      t := Fraction(a.weight - weight, a.weight - b.weight);
    }
    var dy := b.weight - a.weight;
    assert weight - a.weight == t * dy;
    assert slope * (t * dy) == t * (slope * dy);
    MixBetween(t, b.arm, a.arm, lo, hi);
  }
}
