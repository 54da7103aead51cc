/** getTile and getCoordsOfTile: (longitude, Mercator-y) to a tile index of the
    2^zoom x 2^zoom grid, and back from a tile index to the geographic footprint of that tile. Mercator-y is expressed in
    latitude-like degrees in [-90, 90]; computing it from a latitude is not part of this model. */
module Projection {
  import opened Basics

  /** The four map types, and any other string the caller passes. */
  datatype MapType = Standard | Satellite | Terrain | Sky | Unknown(name: string) {
    /** The map-type string used in tile and output names. */
    function Name(): string {
      match this
      case Standard => "map"
      case Satellite => "satellite"
      case Terrain => "terrain"
      case Sky => "sky"
      case Unknown(n) => n
    }
  }

  /** The strings the source compares the map type against. */
  predicate KnownName(s: string) {
    s == "map" || s == "satellite" || s == "terrain" || s == "sky"
  }

  /** A map type as a request carries it: a known string is never Unknown. */
  type RequestType = mt: MapType | !(mt.Unknown? && KnownName(mt.name)) witness Standard

  /** The map-type string of a request, as the comparisons in download, getTile and
      getCoordsOfTile read it. */
  function ParseMapType(s: string): (mt: RequestType)
    ensures mt.Name() == s
    ensures mt.Unknown? <==> !KnownName(s)
  {
    if s == "map" then Standard
    else if s == "satellite" then Satellite
    else if s == "terrain" then Terrain
    else if s == "sky" then Sky
    else Unknown(s)
  }

  /** Reading a request's map-type string back gives the same map type. */
  lemma ParseMapTypeName(mt: RequestType)
    ensures ParseMapType(mt.Name()) == mt
  {
  }

  datatype TileIndex = TileIndex(col: int, row: int)

  datatype Point = Point(x: real, y: real)

  /** Lower-left and upper-right corners, in (longitude, Mercator-y) degrees. */
  datatype Footprint = Footprint(ll: Point, ur: Point)

  /** The two clamps applied to a truncated index: n becomes n - 1, a negative index becomes 0. */
  function ClampIndex(t: int, n: int): int {
    var t1 := if t == n then t - 1 else t;
    if t1 < 0 then 0 else t1
  }

  /** The index along one axis: the coordinate v, shifted by offset and scaled from span degrees
      to n tiles, truncated and clamped. */
  function AxisIndex(n: nat, offset: real, span: real, v: real): int
    requires span > 0.0
  {
    ClampIndex(Trunc(n as real * (v + offset) / span), n)
  }

  /** The lower edge of tile k along one axis: -offset + k * (span / n). */
  function AxisEdge(n: nat, offset: real, span: real, k: int): real
    requires n >= 1
  {
    -offset + k as real * (span / n as real)
  }

  /** Rows run south to north for satellite tiles and north to south for every other type;
      the same flip turns a grid row into a server row and back. */
  function FlipRow(mt: MapType, zoom: nat, row: int): int {
    if mt.Satellite? then row else Pow2(zoom) - 1 - row
  }

  /** getTile: the tile holding (lng, lat) at this zoom. */
  function GetTile(zoom: nat, mt: MapType, lng: real, lat: real): TileIndex {
    var n := Pow2(zoom);
    TileIndex(AxisIndex(n, 180.0, 360.0, lng), FlipRow(mt, zoom, AxisIndex(n, 90.0, 180.0, lat)))
  }

  /** getCoordsOfTile: the tile's footprint, 360/nTile degrees wide and 180/nTile high. */
  function CoordsOfTile(zoom: nat, mt: MapType, t: TileIndex): (fp: Footprint)
    ensures fp.ur.x - fp.ll.x == 360.0 / Pow2(zoom) as real
    ensures fp.ur.y - fp.ll.y == 180.0 / Pow2(zoom) as real
  {
    var n := Pow2(zoom);
    var x := AxisEdge(n, 180.0, 360.0, t.col);
    var y := AxisEdge(n, 90.0, 180.0, FlipRow(mt, zoom, t.row));
    Footprint(Point(x, y), Point(x + 360.0 / n as real, y + 180.0 / n as real))
  }

  // ---- One axis ----

  lemma AxisFraction(n: nat, offset: real, span: real, v: real)
    requires n >= 1 && offset > 0.0 && span == 2.0 * offset && -offset <= v <= offset
    ensures 0.0 <= n as real * (v + offset) / span <= n as real
  {
    ScaleMonotone(n as real, 0.0, v + offset);
    ScaleMonotone(n as real, v + offset, span);
  }

  lemma AxisIndexInRange(n: nat, offset: real, span: real, v: real)
    requires n >= 1 && offset > 0.0 && span == 2.0 * offset && -offset <= v <= offset
    ensures 0 <= AxisIndex(n, offset, span, v) < n
  {
    AxisFraction(n, offset, span, v);
  }

  lemma AxisIndexMonotone(n: nat, offset: real, span: real, v1: real, v2: real)
    requires n >= 1 && offset > 0.0 && span == 2.0 * offset
    requires -offset <= v1 <= v2 <= offset
    ensures AxisIndex(n, offset, span, v1) <= AxisIndex(n, offset, span, v2)
  {
    AxisFraction(n, offset, span, v1);
    AxisFraction(n, offset, span, v2);
    ScaleMonotone(n as real, v1 + offset, v2 + offset);
    DivMonotone(n as real * (v1 + offset), n as real * (v2 + offset), span);
    TruncMonotone(n as real * (v1 + offset) / span, n as real * (v2 + offset) / span);
  }

  /** The tile chosen along an axis spans the coordinate. */
  lemma AxisIndexContains(n: nat, offset: real, span: real, v: real)
    requires n >= 1 && offset > 0.0 && span == 2.0 * offset && -offset <= v <= offset
    ensures var e := AxisEdge(n, offset, span, AxisIndex(n, offset, span, v));
      e <= v <= e + span / n as real
  {
    AxisFraction(n, offset, span, v);
    var q := n as real * (v + offset) / span;
    var w := span / n as real;
    var i := AxisIndex(n, offset, span, v);
    ScaleRoundTrip(n as real, v + offset, span);
    assert q * w == v + offset;
    if q < n as real {
      var t := Trunc(q);
      assert i == t;
      assert t as real <= q < t as real + 1.0;
      ScaleMonotone(w, t as real, q);
      ScaleMonotone(w, q, t as real + 1.0);
      assert w * (t as real + 1.0) == t as real * w + w;
      assert w * q == v + offset;
      assert v + offset <= w * (t as real + 1.0);
      assert v <= -offset + i as real * w + w;
    } else {
      assert i == n - 1;
      assert (n - 1) as real * w + w == n as real * w == span;
    }
  }

  /** The lower edge of tile k maps back to tile k. */
  lemma AxisIndexOfEdge(n: nat, offset: real, span: real, k: int)
    requires n >= 1 && span > 0.0 && 0 <= k < n
    ensures AxisIndex(n, offset, span, AxisEdge(n, offset, span, k)) == k
  {
    var v := -offset + k as real * (span / n as real);
    assert v + offset == k as real * (span / n as real);
    ScaleRoundTrip(n as real, k as real, span);
    var q := n as real * (v + offset) / span;
    assert q == k as real;
    assert Trunc(q) == k;
    assert ClampIndex(k, n) == k;
    assert AxisIndex(n, offset, span, v) == ClampIndex(Trunc(q), n);
  }

  // ---- getTile and getCoordsOfTile ----

  /** For lng in [-180, 180] and Mercator-y in [-90, 90] both indices lie in [0, nTile - 1]. */
  lemma GetTileInRange(zoom: nat, mt: MapType, lng: real, lat: real)
    requires -180.0 <= lng <= 180.0 && -90.0 <= lat <= 90.0
    ensures var t := GetTile(zoom, mt, lng, lat);
      0 <= t.col < Pow2(zoom) && 0 <= t.row < Pow2(zoom)
  {
    AxisIndexInRange(Pow2(zoom), 180.0, 360.0, lng);
    AxisIndexInRange(Pow2(zoom), 90.0, 180.0, lat);
  }

  /** The column never decreases eastward; the row never decreases northward for satellite
      tiles and never increases northward for the other types. */
  lemma GetTileMonotone(zoom: nat, mt: MapType, lng1: real, lat1: real, lng2: real, lat2: real)
    requires -180.0 <= lng1 <= 180.0 && -90.0 <= lat1 <= 90.0
    requires -180.0 <= lng2 <= 180.0 && -90.0 <= lat2 <= 90.0
    ensures var a, b := GetTile(zoom, mt, lng1, lat1), GetTile(zoom, mt, lng2, lat2);
      && (lng1 <= lng2 ==> a.col <= b.col)
      && (lat1 <= lat2 && mt.Satellite? ==> a.row <= b.row)
      && (lat1 <= lat2 && !mt.Satellite? ==> a.row >= b.row)
  {
    var n := Pow2(zoom);
    if lng1 <= lng2 {
      AxisIndexMonotone(n, 180.0, 360.0, lng1, lng2);
    }
    if lat1 <= lat2 {
      AxisIndexMonotone(n, 90.0, 180.0, lat1, lat2);
    }
  }

  /** The footprint of the tile getTile picks contains the point. */
  lemma GetTileInFootprint(zoom: nat, mt: MapType, lng: real, lat: real)
    requires -180.0 <= lng <= 180.0 && -90.0 <= lat <= 90.0
    ensures var fp := CoordsOfTile(zoom, mt, GetTile(zoom, mt, lng, lat));
      fp.ll.x <= lng <= fp.ur.x && fp.ll.y <= lat <= fp.ur.y
  {
    var n := Pow2(zoom);
    AxisIndexContains(n, 180.0, 360.0, lng);
    AxisIndexContains(n, 90.0, 180.0, lat);
    var tx, ty := AxisIndex(n, 180.0, 360.0, lng), AxisIndex(n, 90.0, 180.0, lat);
    var t := GetTile(zoom, mt, lng, lat);
    assert t == TileIndex(tx, FlipRow(mt, zoom, ty));
    assert FlipRow(mt, zoom, t.row) == ty;
  }

  /** getTile applied to a tile's lower-left corner gives that tile back. */
  lemma CoordsOfTileRoundTrip(zoom: nat, mt: MapType, t: TileIndex)
    requires 0 <= t.col < Pow2(zoom) && 0 <= t.row < Pow2(zoom)
    ensures var fp := CoordsOfTile(zoom, mt, t);
      GetTile(zoom, mt, fp.ll.x, fp.ll.y) == t
  {
    var n := Pow2(zoom);
    var ty := FlipRow(mt, zoom, t.row);
    AxisIndexOfEdge(n, 180.0, 360.0, t.col);
    AxisIndexOfEdge(n, 90.0, 180.0, ty);
    assert FlipRow(mt, zoom, ty) == t.row;
  }
}
