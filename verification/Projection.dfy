/** Fitting tracks on the image canvas: _build_gif_projection. The Mercator
    function is any monotone function, pi any positive number. */
module Projection {
  import opened Options

  datatype Coord = Coord(lon: real, lat: real)

  ghost predicate Monotone(mercator: real -> real) {
    forall a, b :: a <= b ==> mercator(a) <= mercator(b)
  }

  datatype Map = Map(minLon: real, yMax: real, scaleX: real, scaleY: real, offX: real, offY: real)
  {
    function X(c: Coord): real {
      offX + (c.lon - minLon) * scaleX
    }

    function Y(c: Coord, mercator: real -> real): real {
      offY + (yMax - mercator(c.lat)) * scaleY
    }
  }

  function Min(a: real, b: real): real {
    if b < a then b else a
  }

  function Max(a: real, b: real): real {
    if b > a then b else a
  }

  function MinOf(s: seq<real>): (m: real)
    requires s != []
    ensures m in s && forall x :: x in s ==> m <= x
  {
    if |s| == 1 then s[0]
    else
      assert forall x :: x in s <==> x in s[..|s| - 1] || x == s[|s| - 1];
      Min(MinOf(s[..|s| - 1]), s[|s| - 1])
  }

  function MaxOf(s: seq<real>): (m: real)
    requires s != []
    ensures m in s && forall x :: x in s ==> x <= m
  {
    if |s| == 1 then s[0]
    else
      assert forall x :: x in s <==> x in s[..|s| - 1] || x == s[|s| - 1];
      Max(MaxOf(s[..|s| - 1]), s[|s| - 1])
  }

  /** Python's int() on a float: towards zero. */
  function Truncate(x: real): (r: int)
    ensures x >= 0.0 ==> r as real <= x < r as real + 1.0
    ensures x < 0.0 ==> r as real - 1.0 < x <= r as real
  {
    if x >= 0.0 then x.Floor else -((-x).Floor)
  }

  function Lons(cs: seq<Coord>): seq<real> {
    seq(|cs|, i requires 0 <= i < |cs| => cs[i].lon)
  }

  function Lats(cs: seq<Coord>): seq<real> {
    seq(|cs|, i requires 0 <= i < |cs| => cs[i].lat)
  }

  /** Python's `x or 1e-9`. */
  function OrTiny(x: real): (r: real)
    ensures r != 0.0 && (x >= 0.0 ==> r > 0.0 && r >= x)
  {
    if x == 0.0 then 0.000000001 else x
  }

  /** The bounding box of the tracks, with a margin. */
  datatype Box = Box(minLon: real, maxLon: real, minLat: real, maxLat: real)
  {
    ghost predicate Holds(c: Coord) {
      minLon <= c.lon <= maxLon && minLat <= c.lat <= maxLat
    }
  }

  function Margin(s: seq<real>): (m: real)
    requires s != []
    ensures m > 0.0
  {
    Max(MaxOf(s) - MinOf(s), 0.1) * 0.1
  }

  function BoundingBox(cs: seq<Coord>): Box
    requires cs != []
  {
    var lons, lats := Lons(cs), Lats(cs);
    Box(MinOf(lons) - Margin(lons), MaxOf(lons) + Margin(lons), MinOf(lats) - Margin(lats), MaxOf(lats) + Margin(lats))
  }

  function MapOf(box: Box, width: int, height: int, pad: int, mercator: real -> real, pi: real): Map
    requires pi > 0.0
  {
    var usableW, usableH := (width - 2 * pad) as real, (height - 2 * pad) as real;
    var yMin, yMax := mercator(box.minLat), mercator(box.maxLat);
    var yRange, xRange := OrTiny(yMax - yMin), OrTiny(box.maxLon - box.minLon);
    var scaleX := Min(usableW / xRange, usableH * pi / (180.0 * yRange));
    var scaleY := scaleX * 180.0 / pi;
    Map(box.minLon, yMax, scaleX, scaleY,
        pad as real + (usableW - xRange * scaleX) / 2.0,
        pad as real + (usableH - yRange * scaleY) / 2.0)
  }

  function BuildProjection(cs: seq<Coord>, width: int, height: int, pad: int, mercator: real -> real,
                           pi: real): Option<Map>
    requires pi > 0.0
  {
    if |cs| < 2 then None else Some(MapOf(BoundingBox(cs), width, height, pad, mercator, pi))
  }

  /** A point within a range, scaled and centred, stays within the padding. */
  lemma Centred(d: real, range: real, scale: real, room: real, pad: real)
    requires 0.0 <= d <= range && scale > 0.0 && scale * range <= room
    ensures var off := pad + (room - range * scale) / 2.0; pad <= off + d * scale <= pad + room
  {
  }

  lemma TruncateWithin(x: real, lo: int, hi: int)
    requires lo as real <= x <= hi as real
    ensures lo <= Truncate(x) <= hi
  {
  }

  lemma BoxHolds(cs: seq<Coord>, c: Coord)
    requires c in cs
    ensures BoundingBox(cs).Holds(c)
  {
    var i :| 0 <= i < |cs| && cs[i] == c;
    assert Lons(cs)[i] == c.lon && Lats(cs)[i] == c.lat;
    assert c.lon in Lons(cs) && c.lat in Lats(cs);
  }

  lemma FitsAcross(x: real, d: real, range: real, scale: real, room: real, pad: int, size: int)
    requires 0.0 <= d <= range && range > 0.0 && room > 0.0 && room == (size - 2 * pad) as real
    requires scale > 0.0 && scale * range <= room
    requires x == pad as real + (room - range * scale) / 2.0 + d * scale
    ensures pad <= Truncate(x) <= size - pad
  {
    Centred(d, range, scale, room, pad as real);
    TruncateWithin(x, pad, size - pad);
  }

  lemma MapScales(box: Box, width: int, height: int, pad: int, mercator: real -> real, pi: real)
    requires pi > 0.0 && width > 2 * pad && height > 2 * pad
    requires box.minLon <= box.maxLon && mercator(box.minLat) <= mercator(box.maxLat)
    ensures var m := MapOf(box, width, height, pad, mercator, pi);
            && m.scaleX > 0.0 && m.scaleX * OrTiny(box.maxLon - box.minLon) <= (width - 2 * pad) as real
            && m.scaleY > 0.0
            && m.scaleY * OrTiny(mercator(box.maxLat) - mercator(box.minLat)) <= (height - 2 * pad) as real
            && m.scaleY * pi == m.scaleX * 180.0
  {
  }

  lemma PointFitsX(box: Box, width: int, height: int, pad: int, mercator: real -> real, pi: real, c: Coord)
    requires pi > 0.0 && width > 2 * pad && box.minLon <= c.lon <= box.maxLon
    requires var m := MapOf(box, width, height, pad, mercator, pi);
             m.scaleX > 0.0 && m.scaleX * OrTiny(box.maxLon - box.minLon) <= (width - 2 * pad) as real
    ensures pad <= Truncate(MapOf(box, width, height, pad, mercator, pi).X(c)) <= width - pad
  {
    hide Min, Truncate;
    var m, range, room := MapOf(box, width, height, pad, mercator, pi), OrTiny(box.maxLon - box.minLon),
      (width - 2 * pad) as real;
    FitsAcross(m.X(c), c.lon - box.minLon, range, m.scaleX, room, pad, width);
  }

  lemma PointFitsY(box: Box, width: int, height: int, pad: int, mercator: real -> real, pi: real, c: Coord)
    requires pi > 0.0 && height > 2 * pad && mercator(box.minLat) <= mercator(c.lat) <= mercator(box.maxLat)
    requires var m := MapOf(box, width, height, pad, mercator, pi);
             m.scaleY > 0.0
             && m.scaleY * OrTiny(mercator(box.maxLat) - mercator(box.minLat)) <= (height - 2 * pad) as real
    ensures pad <= Truncate(MapOf(box, width, height, pad, mercator, pi).Y(c, mercator)) <= height - pad
  {
    hide Min, Truncate;
    var m, room := MapOf(box, width, height, pad, mercator, pi), (height - 2 * pad) as real;
    var range, d := OrTiny(mercator(box.maxLat) - mercator(box.minLat)), m.yMax - mercator(c.lat);
    FitsAcross(m.Y(c, mercator), d, range, m.scaleY, room, pad, height);
  }

  /** Every point of the tracks lands inside the padded canvas, and the two scales
      keep the fixed ratio of 180 to pi, so nothing is distorted. */
  lemma FitsCanvas(cs: seq<Coord>, width: int, height: int, pad: int, mercator: real -> real, pi: real, c: Coord)
    requires |cs| >= 2 && c in cs && Monotone(mercator) && pi > 0.0
    requires width > 2 * pad && height > 2 * pad
    ensures var m := BuildProjection(cs, width, height, pad, mercator, pi);
            && m.Some? && m.value.scaleX > 0.0 && m.value.scaleY * pi == m.value.scaleX * 180.0
            && pad <= Truncate(m.value.X(c)) <= width - pad
            && pad <= Truncate(m.value.Y(c, mercator)) <= height - pad
  {
    hide MapOf, Truncate;
    var box := BoundingBox(cs);
    BoxHolds(cs, c);
    assert mercator(box.minLat) <= mercator(c.lat) <= mercator(box.maxLat);
    MapScales(box, width, height, pad, mercator, pi);
    PointFitsX(box, width, height, pad, mercator, pi, c);
    PointFitsY(box, width, height, pad, mercator, pi, c);
  }

  /** East is right and north is up. */
  lemma Orientation(box: Box, width: int, height: int, pad: int, mercator: real -> real, pi: real, c: Coord, d: Coord)
    requires Monotone(mercator) && pi > 0.0 && width > 2 * pad && height > 2 * pad
    requires box.minLon <= box.maxLon && box.minLat <= box.maxLat
    ensures var m := MapOf(box, width, height, pad, mercator, pi);
            && (c.lon < d.lon ==> m.X(c) < m.X(d)) && (c.lon == d.lon ==> m.X(c) == m.X(d))
            && (c.lat <= d.lat ==> m.Y(d, mercator) <= m.Y(c, mercator))
            && (mercator(c.lat) < mercator(d.lat) ==> m.Y(d, mercator) < m.Y(c, mercator))
  {
    var m := MapOf(box, width, height, pad, mercator, pi);
    MapScales(box, width, height, pad, mercator, pi);
    hide MapOf;
    TimesOrdered(c.lon - m.minLon, d.lon - m.minLon, m.scaleX);
    TimesOrdered(d.lon - m.minLon, c.lon - m.minLon, m.scaleX);
    TimesOrdered(m.yMax - mercator(d.lat), m.yMax - mercator(c.lat), m.scaleY);
  }

  lemma TimesOrdered(a: real, b: real, scale: real)
    requires scale > 0.0
    ensures a < b ==> a * scale < b * scale
    ensures a <= b ==> a * scale <= b * scale
  {
    assert (b - a) * scale == b * scale - a * scale;
    PositiveProduct(b - a, scale);
  }

  lemma PositiveProduct(x: real, y: real)
    requires y > 0.0
    ensures x > 0.0 ==> x * y > 0.0
    ensures x == 0.0 ==> x * y == 0.0
  {
  }

  /** The map is as large as fits: one of the two axes is filled. */
  lemma OneAxisFilled(box: Box, width: int, height: int, pad: int, mercator: real -> real, pi: real)
    requires pi > 0.0 && width > 2 * pad && height > 2 * pad
    requires box.minLon <= box.maxLon && mercator(box.minLat) <= mercator(box.maxLat)
    ensures var m := MapOf(box, width, height, pad, mercator, pi);
            || m.scaleX * OrTiny(box.maxLon - box.minLon) == (width - 2 * pad) as real
            || m.scaleY * OrTiny(mercator(box.maxLat) - mercator(box.minLat)) == (height - 2 * pad) as real
  {
    var xRange, yRange := OrTiny(box.maxLon - box.minLon), OrTiny(mercator(box.maxLat) - mercator(box.minLat));
    var w, h := (width - 2 * pad) as real, (height - 2 * pad) as real;
    var m := MapOf(box, width, height, pad, mercator, pi);
    assert (w / xRange) * xRange == w;
    if m.scaleX != w / xRange {
      Undo(m.scaleX, h, yRange, pi);
    }
  }

  lemma Undo(scaleX: real, h: real, yRange: real, pi: real)
    requires pi > 0.0 && yRange > 0.0 && scaleX == h * pi / (180.0 * yRange)
    ensures scaleX * 180.0 / pi * yRange == h
  {
    assert scaleX * (180.0 * yRange) == h * pi;
    var scaleY := scaleX * 180.0 / pi;
    assert scaleY * pi == scaleX * 180.0;
    assert (scaleY * yRange) * pi == (scaleX * 180.0) * yRange == h * pi;
    assert (scaleY * yRange - h) * pi == 0.0;
  }

  /** The tracks leave a twelfth of the map free on every side. */
  lemma MarginKept(cs: seq<Coord>, c: Coord)
    requires c in cs
    ensures var box := BoundingBox(cs);
            && (box.maxLon - box.minLon) / 12.0 <= c.lon - box.minLon <= (box.maxLon - box.minLon) * 11.0 / 12.0
            && (box.maxLat - box.minLat) / 12.0 <= c.lat - box.minLat <= (box.maxLat - box.minLat) * 11.0 / 12.0
  {
    var i :| 0 <= i < |cs| && cs[i] == c;
    assert Lons(cs)[i] == c.lon && Lats(cs)[i] == c.lat;
    assert c.lon in Lons(cs) && c.lat in Lats(cs);
  }

  /** The map is centred: as much is free to the left as to the right, and above as below. */
  lemma MapCentred(box: Box, width: int, height: int, pad: int, mercator: real -> real, pi: real)
    requires pi > 0.0 && box.minLon < box.maxLon && mercator(box.minLat) < mercator(box.maxLat)
    ensures var m := MapOf(box, width, height, pad, mercator, pi);
            && m.X(Coord(box.minLon, box.minLat)) + m.X(Coord(box.maxLon, box.maxLat)) == width as real
            && m.Y(Coord(box.minLon, box.minLat), mercator) + m.Y(Coord(box.maxLon, box.maxLat), mercator)
               == height as real
  {
    var m := MapOf(box, width, height, pad, mercator, pi);
    var xRange, yRange := box.maxLon - box.minLon, mercator(box.maxLat) - mercator(box.minLat);
    assert m.offX == pad as real + ((width - 2 * pad) as real - xRange * m.scaleX) / 2.0;
    assert m.offY == pad as real + ((height - 2 * pad) as real - yRange * m.scaleY) / 2.0;
    assert (m.yMax - mercator(box.minLat)) * m.scaleY == yRange * m.scaleY;
  }

  /** The box is the tracks' extent, widened on each side by a tenth of it, or by a
      hundredth of a degree if the extent is under a tenth of a degree. */
  lemma BoxOfExtent(cs: seq<Coord>, w: Coord, e: Coord, s: Coord, n: Coord)
    requires w in cs && e in cs && s in cs && n in cs
    requires forall c :: c in cs ==> w.lon <= c.lon <= e.lon && s.lat <= c.lat <= n.lat
    ensures var box := BoundingBox(cs);
            var dlon, dlat := (if e.lon - w.lon < 0.1 then 0.1 else e.lon - w.lon) / 10.0,
                              (if n.lat - s.lat < 0.1 then 0.1 else n.lat - s.lat) / 10.0;
            && box.minLon == w.lon - dlon && box.maxLon == e.lon + dlon
            && box.minLat == s.lat - dlat && box.maxLat == n.lat + dlat
  {
    var lons, lats := Lons(cs), Lats(cs);
    LonListed(cs, w);
    LonListed(cs, e);
    LonListed(cs, s);
    LonListed(cs, n);
    var a :| 0 <= a < |lons| && lons[a] == MinOf(lons);
    var b :| 0 <= b < |lons| && lons[b] == MaxOf(lons);
    var c :| 0 <= c < |lats| && lats[c] == MinOf(lats);
    var d :| 0 <= d < |lats| && lats[d] == MaxOf(lats);
    assert cs[a] in cs && cs[b] in cs && cs[c] in cs && cs[d] in cs;
  }

  lemma LonListed(cs: seq<Coord>, c: Coord)
    requires c in cs
    ensures c.lon in Lons(cs) && c.lat in Lats(cs)
  {
    var i :| 0 <= i < |cs| && cs[i] == c;
    assert Lons(cs)[i] == c.lon && Lats(cs)[i] == c.lat;
  }
}
