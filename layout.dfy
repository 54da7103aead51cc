/** The pixel arithmetic of stitch and crop: a 256 x 256 square per tile on a canvas of
    256 nX x 256 nY pixels with grid row 0 at the bottom, and the crop box that cuts the
    requested (longitude, Mercator-y) box out of the grid's footprint. */
module Layout {
  import opened Basics
  import opened Projection
  import opened TileGrid
  import opened Naming

  const TileSize := 256

  /** Top-left pixel of the square tile (i, j) is pasted into, on a canvas pY pixels high. */
  function PasteOrigin(i: int, j: int, pY: int): (int, int) {
    (TileSize * i, pY - TileSize * (j + 1))
  }

  /** On the 256 nX x 256 nY canvas every tile square lies inside the canvas; row 0 touches
      the bottom edge and row nY - 1 the top edge. */
  lemma PasteInsideCanvas(nX: int, nY: int, i: int, j: int)
    requires 0 <= i < nX && 0 <= j < nY
    ensures var o := PasteOrigin(i, j, TileSize * nY);
      && 0 <= o.0 && o.0 + TileSize <= TileSize * nX
      && 0 <= o.1 && o.1 + TileSize <= TileSize * nY
      && (j == 0 ==> o.1 + TileSize == TileSize * nY)
      && (j == nY - 1 ==> o.1 == 0)
  {
  }

  /** Squares of distinct tiles do not overlap. */
  lemma PastesDisjoint(pY: int, i1: int, j1: int, i2: int, j2: int)
    requires i1 != i2 || j1 != j2
    ensures var o1, o2 := PasteOrigin(i1, j1, pY), PasteOrigin(i2, j2, pY);
      o1.0 + TileSize <= o2.0 || o2.0 + TileSize <= o1.0 ||
      o1.1 + TileSize <= o2.1 || o2.1 + TileSize <= o1.1
  {
  }

  /** One paste: the tile file (by identifier) and where its top-left corner goes. */
  datatype Paste = Paste(identifier: string, x: int, y: int)

  function PasteOf(mt: MapType, zoom: nat, t: Tile, i: int, j: int, pY: int): Paste {
    var o := PasteOrigin(i, j, pY);
    Paste(MakeIdentifier(mt, zoom, t), o.0, o.1)
  }

  /** The pastes for column i, rows 0 .. |col| - 1, skipping unavailable tiles. */
  function ColumnPastes(mt: MapType, zoom: nat, col: seq<Tile>, i: int, pY: int): seq<Paste> {
    if col == [] then []
    else
      var j := |col| - 1;
      ColumnPastes(mt, zoom, col[..j], i, pY) + (if col[j].status then [PasteOf(mt, zoom, col[j], i, j, pY)] else [])
  }

  /** The pastes of the whole matrix, column by column. */
  function Pastes(mt: MapType, zoom: nat, m: seq<seq<Tile>>, pY: int): seq<Paste> {
    if m == [] then []
    else Pastes(mt, zoom, m[..|m| - 1], pY) + ColumnPastes(mt, zoom, m[|m| - 1], |m| - 1, pY)
  }

  /** Tile j of column col (column i of the grid) is available and p is its paste. */
  predicate PastedCell(mt: MapType, zoom: nat, col: seq<Tile>, i: int, j: int, pY: int, p: Paste) {
    0 <= j < |col| && col[j].status && p == PasteOf(mt, zoom, col[j], i, j, pY)
  }

  /** Cells of a column prefix are the column's own cells. */
  lemma PastedCellPrefix(mt: MapType, zoom: nat, col: seq<Tile>, k: int, i: int, j: int, pY: int, p: Paste)
    requires 0 <= k <= |col|
    ensures PastedCell(mt, zoom, col[..k], i, j, pY, p) <==> j < k && PastedCell(mt, zoom, col, i, j, pY, p)
  {
    if 0 <= j < k {
      assert col[..k][j] == col[j];
    }
  }

  /** Every paste of a column is the paste of one of its available tiles. */
  lemma {:induction false} ColumnPastesSound(mt: MapType, zoom: nat, col: seq<Tile>, i: int, pY: int, p: Paste)
    requires p in ColumnPastes(mt, zoom, col, i, pY)
    ensures exists j :: PastedCell(mt, zoom, col, i, j, pY, p)
  {
    var j := |col| - 1;
    var init := col[..j];
    if p in ColumnPastes(mt, zoom, init, i, pY) {
      ColumnPastesSound(mt, zoom, init, i, pY, p);
      var j' :| PastedCell(mt, zoom, init, i, j', pY, p);
      PastedCellPrefix(mt, zoom, col, j, i, j', pY, p);
    } else {
      assert PastedCell(mt, zoom, col, i, j, pY, p);
    }
  }

  /** Every available tile of a column is pasted. */
  lemma {:induction false} ColumnPastesComplete(mt: MapType, zoom: nat, col: seq<Tile>, i: int, j: int, pY: int, p: Paste)
    requires PastedCell(mt, zoom, col, i, j, pY, p)
    ensures p in ColumnPastes(mt, zoom, col, i, pY)
  {
    var k := |col| - 1;
    var init := col[..k];
    assert ColumnPastes(mt, zoom, col, i, pY) == ColumnPastes(mt, zoom, init, i, pY) +
      (if col[k].status then [PasteOf(mt, zoom, col[k], i, k, pY)] else []);
    if j < k {
      PastedCellPrefix(mt, zoom, col, k, i, j, pY, p);
      ColumnPastesComplete(mt, zoom, init, i, j, pY, p);
    }
  }

  /** A column's pastes are exactly its available tiles, each at its own origin. */
  lemma ColumnPastesExact(mt: MapType, zoom: nat, col: seq<Tile>, i: int, pY: int, p: Paste)
    ensures p in ColumnPastes(mt, zoom, col, i, pY) <==> exists j :: PastedCell(mt, zoom, col, i, j, pY, p)
  {
    if p in ColumnPastes(mt, zoom, col, i, pY) {
      ColumnPastesSound(mt, zoom, col, i, pY, p);
    }
    if exists j :: PastedCell(mt, zoom, col, i, j, pY, p) {
      var j :| PastedCell(mt, zoom, col, i, j, pY, p);
      ColumnPastesComplete(mt, zoom, col, i, j, pY, p);
    }
  }

  /** Tile (i, j) of the grid is available and p is its paste. */
  predicate Pasted(mt: MapType, zoom: nat, m: seq<seq<Tile>>, i: int, j: int, pY: int, p: Paste) {
    0 <= i < |m| && PastedCell(mt, zoom, m[i], i, j, pY, p)
  }

  /** Cells of a matrix prefix are the matrix's own cells. */
  lemma PastedPrefix(mt: MapType, zoom: nat, m: seq<seq<Tile>>, k: int, i: int, j: int, pY: int, p: Paste)
    requires 0 <= k <= |m|
    ensures Pasted(mt, zoom, m[..k], i, j, pY, p) <==> i < k && Pasted(mt, zoom, m, i, j, pY, p)
  {
    if 0 <= i < k {
      assert m[..k][i] == m[i];
    }
  }

  /** Every paste of the matrix is the paste of one of its available tiles. */
  lemma {:induction false} PastesSound(mt: MapType, zoom: nat, m: seq<seq<Tile>>, pY: int, p: Paste)
    requires p in Pastes(mt, zoom, m, pY)
    ensures exists i, j :: Pasted(mt, zoom, m, i, j, pY, p)
  {
    var i := |m| - 1;
    var init := m[..i];
    assert Pastes(mt, zoom, m, pY) == Pastes(mt, zoom, init, pY) + ColumnPastes(mt, zoom, m[i], i, pY);
    if p in Pastes(mt, zoom, init, pY) {
      PastesSound(mt, zoom, init, pY, p);
      var i', j :| Pasted(mt, zoom, init, i', j, pY, p);
      PastedPrefix(mt, zoom, m, i, i', j, pY, p);
    } else {
      ColumnPastesSound(mt, zoom, m[i], i, pY, p);
      var j :| PastedCell(mt, zoom, m[i], i, j, pY, p);
      assert Pasted(mt, zoom, m, i, j, pY, p);
    }
  }

  /** Every available tile of the matrix is pasted. */
  lemma {:induction false} PastesComplete(mt: MapType, zoom: nat, m: seq<seq<Tile>>, i: int, j: int, pY: int, p: Paste)
    requires Pasted(mt, zoom, m, i, j, pY, p)
    ensures p in Pastes(mt, zoom, m, pY)
  {
    var k := |m| - 1;
    var init := m[..k];
    assert Pastes(mt, zoom, m, pY) == Pastes(mt, zoom, init, pY) + ColumnPastes(mt, zoom, m[k], k, pY);
    if i < k {
      PastedPrefix(mt, zoom, m, k, i, j, pY, p);
      PastesComplete(mt, zoom, init, i, j, pY, p);
      assert p in Pastes(mt, zoom, init, pY);
    } else {
      assert i == k;
      ColumnPastesComplete(mt, zoom, m[k], k, j, pY, p);
      assert p in ColumnPastes(mt, zoom, m[k], k, pY);
    }
  }

  /** stitch pastes exactly the available tiles, each at PasteOrigin: tiles whose status is
      false are skipped and no other square is drawn. */
  lemma PastesExact(mt: MapType, zoom: nat, m: seq<seq<Tile>>, pY: int, p: Paste)
    ensures p in Pastes(mt, zoom, m, pY) <==> exists i, j :: Pasted(mt, zoom, m, i, j, pY, p)
  {
    if p in Pastes(mt, zoom, m, pY) {
      PastesSound(mt, zoom, m, pY, p);
    }
    if exists i, j :: Pasted(mt, zoom, m, i, j, pY, p) {
      var i, j :| Pasted(mt, zoom, m, i, j, pY, p);
      PastesComplete(mt, zoom, m, i, j, pY, p);
    }
  }

  // ---- The grid's footprint ----

  /** From the lower-left corner of tile (0, 0) to the upper-right corner of tile (nX-1, nY-1). */
  function GridFootprint(zoom: nat, mt: MapType, m: seq<seq<Tile>>): Footprint
    requires |m| >= 1 && |m[0]| >= 1 && |m[|m| - 1]| >= 1
  {
    var first, last := m[0][0], m[|m| - 1][|m[|m| - 1]| - 1];
    Footprint(CoordsOfTile(zoom, mt, TileIndex(first.col, first.row)).ll,
              CoordsOfTile(zoom, mt, TileIndex(last.col, last.row)).ur)
  }

  /** From the lower edge of tile k1 to the upper edge of tile k1 + d, d >= 0: d + 1 tile
      sizes, a positive distance. */
  lemma AxisSpan(n: nat, offset: real, span: real, k1: int, d: int)
    requires n >= 1 && span > 0.0 && d >= 0
    ensures var w := span / n as real;
      AxisEdge(n, offset, span, k1 + d) + w - AxisEdge(n, offset, span, k1) == (d + 1) as real * w > 0.0
  {
    var w := span / n as real;
    assert (k1 + d) as real * w == k1 as real * w + d as real * w;
    ScaleMonotone(w, 1.0, (d + 1) as real);
  }

  /** Tiles first and last, nX columns and nY grid rows apart (both counted inclusively),
      span nX tile widths and nY tile heights. */
  lemma FootprintSpan(zoom: nat, mt: MapType, first: TileIndex, last: TileIndex, nX: int, nY: int)
    requires nX >= 1 && nY >= 1
    requires last.col == first.col + (nX - 1)
    requires FlipRow(mt, zoom, last.row) == FlipRow(mt, zoom, first.row) + (nY - 1)
    ensures var lo, hi, n := CoordsOfTile(zoom, mt, first).ll, CoordsOfTile(zoom, mt, last).ur, Pow2(zoom) as real;
      && hi.x - lo.x == nX as real * (360.0 / n) && hi.x > lo.x
      && hi.y - lo.y == nY as real * (180.0 / n) && hi.y > lo.y
  {
    var n := Pow2(zoom);
    var lo, hi := CoordsOfTile(zoom, mt, first).ll, CoordsOfTile(zoom, mt, last).ur;
    var r1 := FlipRow(mt, zoom, first.row);
    assert lo == Point(AxisEdge(n, 180.0, 360.0, first.col), AxisEdge(n, 90.0, 180.0, r1));
    assert hi == Point(AxisEdge(n, 180.0, 360.0, first.col + (nX - 1)) + 360.0 / n as real,
                       AxisEdge(n, 90.0, 180.0, r1 + (nY - 1)) + 180.0 / n as real);
    AxisSpan(n, 180.0, 360.0, first.col, nX - 1);
    AxisSpan(n, 90.0, 180.0, r1, nY - 1);
  }

  /** The first and the last tile of a built matrix: nX - 1 columns and nY - 1 grid rows
      apart. */
  lemma MatrixEnds(zoom: nat, mt: MapType, m: seq<seq<Tile>>, a: TileIndex, b: TileIndex)
    requires SameCells(m, TileMatrix(zoom, mt, a, b))
    ensures |m| >= 1 && |m[0]| >= 1 && |m[|m| - 1]| == |m[0]|
    ensures var first, last := m[0][0], m[|m| - 1][|m[0]| - 1];
      && last.col == first.col + (|m| - 1)
      && FlipRow(mt, zoom, last.row) == FlipRow(mt, zoom, first.row) + (|m[0]| - 1)
  {
    var m' := TileMatrix(zoom, mt, a, b);
    var nX, nY := |m|, |m[0]|;
    assert |m'| == nX >= 1 && |m'[0]| == nY >= 1;
    assert |m[nX - 1]| == |m'[nX - 1]| == nY;
    assert m'[0][0] == TileAt(zoom, mt, a, 0, 0);
    assert m'[nX - 1][nY - 1] == TileAt(zoom, mt, a, nX - 1, nY - 1);
  }

  /** A grid whose end tiles are nX - 1 columns and nY - 1 grid rows apart has a footprint
      nX tiles wide and nY tiles high. */
  lemma EndsFootprint(zoom: nat, mt: MapType, m: seq<seq<Tile>>, nX: int, nY: int)
    requires |m| == nX >= 1 && |m[0]| == nY >= 1 && |m[nX - 1]| == nY
    requires m[nX - 1][nY - 1].col == m[0][0].col + (nX - 1)
    requires FlipRow(mt, zoom, m[nX - 1][nY - 1].row) == FlipRow(mt, zoom, m[0][0].row) + (nY - 1)
    ensures var fp, n := GridFootprint(zoom, mt, m), Pow2(zoom) as real;
      && fp.ur.x - fp.ll.x == nX as real * (360.0 / n)
      && fp.ur.y - fp.ll.y == nY as real * (180.0 / n)
      && fp.ur.x > fp.ll.x && fp.ur.y > fp.ll.y
  {
    var first, last := m[0][0], m[nX - 1][nY - 1];
    FootprintSpan(zoom, mt, TileIndex(first.col, first.row), TileIndex(last.col, last.row), nX, nY);
  }

  /** The footprint of a built matrix has positive width and height, whatever the order of
      its corners. */
  lemma GridFootprintPositive(zoom: nat, mt: MapType, m: seq<seq<Tile>>, a: TileIndex, b: TileIndex)
    requires SameCells(m, TileMatrix(zoom, mt, a, b))
    ensures |m| >= 1 && |m[0]| >= 1 && |m[|m| - 1]| >= 1
    ensures var fp := GridFootprint(zoom, mt, m); fp.ur.x > fp.ll.x && fp.ur.y > fp.ll.y
  {
    MatrixEnds(zoom, mt, m, a, b);
    EndsFootprint(zoom, mt, m, |m|, |m[0]|);
  }

  /** The footprint of the matrix between ordered corners runs from the lower-left corner
      of a to the upper-right corner of b. */
  lemma MatrixFootprint(zoom: nat, mt: MapType, a: TileIndex, b: TileIndex)
    requires a.col <= b.col
    requires mt.Satellite? ==> a.row <= b.row
    requires !mt.Satellite? ==> a.row >= b.row
    ensures GridFootprint(zoom, mt, TileMatrix(zoom, mt, a, b)) ==
      Footprint(CoordsOfTile(zoom, mt, a).ll, CoordsOfTile(zoom, mt, b).ur)
  {
    var m: seq<seq<Tile>> := TileMatrix(zoom, mt, a, b);
    TileMatrixCorners(zoom, mt, a, b);
    var first, last := m[0][0], m[|m| - 1][|m[|m| - 1]| - 1];
    assert TileIndex(first.col, first.row) == a && TileIndex(last.col, last.row) == b;
  }

  /** For a box inside the world the footprint of its matrix contains the box. */
  lemma GridFootprintContainsBox(zoom: nat, mt: MapType, lng0: real, y0: real, lng1: real, y1: real)
    requires -180.0 <= lng0 <= lng1 <= 180.0 && -90.0 <= y0 <= y1 <= 90.0
    ensures var m := TileMatrix(zoom, mt, GetTile(zoom, mt, lng0, y0), GetTile(zoom, mt, lng1, y1));
      var fp := GridFootprint(zoom, mt, m);
      fp.ll.x <= lng0 && lng1 <= fp.ur.x && fp.ll.y <= y0 && y1 <= fp.ur.y
  {
    var a, b := GetTile(zoom, mt, lng0, y0), GetTile(zoom, mt, lng1, y1);
    CornersOrdered(zoom, mt, lng0, y0, lng1, y1);
    MatrixFootprint(zoom, mt, a, b);
    GetTileInFootprint(zoom, mt, lng0, y0);
    GetTileInFootprint(zoom, mt, lng1, y1);
  }

  // ---- The crop box ----

  /** A PIL box: left and upper edges included, right and lower edges excluded. */
  datatype CropBox = CropBox(left: int, upper: int, right: int, lower: int)

  /** Where v sits in [lo, hi], as a fraction of its width (0 at lo, 1 at hi). */
  function Fraction(v: real, lo: real, hi: real): real
    requires lo < hi
  {
    (v - lo) / (hi - lo)
  }

  /** `int(p * f)`: a fraction f of p pixels, truncated. */
  function Scaled(p: int, f: real): int {
    Trunc(p as real * f)
  }

  /** Pixel column of longitude lng, before clamping. */
  function PixelX(pX: int, lng: real, fp: Footprint): int
    requires fp.ur.x > fp.ll.x
  {
    Scaled(pX, Fraction(lng, fp.ll.x, fp.ur.x))
  }

  /** Pixel row of Mercator-y y counted from the top, before clamping. */
  function PixelY(pY: int, y: real, fp: Footprint): int
    requires fp.ur.y > fp.ll.y
  {
    Scaled(pY, 1.0 - Fraction(y, fp.ll.y, fp.ur.y))
  }

  /** The clamp as written: into [0, p - 1]. */
  function ClampAsWritten(v: int, p: int): int {
    var v1 := if v >= p then p - 1 else v;
    if v1 < 0 then 0 else v1
  }

  /** crop as written: box [ax, by, bx, ay] with every coordinate clamped into [0, p - 1]. */
  function CropAsWritten(pX: int, pY: int, lng0: real, y0: real, lng1: real, y1: real, fp: Footprint): CropBox
    requires fp.ur.x > fp.ll.x && fp.ur.y > fp.ll.y
  {
    CropBox(ClampAsWritten(PixelX(pX, lng0, fp), pX), ClampAsWritten(PixelY(pY, y1, fp), pY),
            ClampAsWritten(PixelX(pX, lng1, fp), pX), ClampAsWritten(PixelY(pY, y0, fp), pY))
  }

  /** As written, every coordinate lies in [0, p - 1]. */
  lemma CropAsWrittenBounds(pX: int, pY: int, lng0: real, y0: real, lng1: real, y1: real, fp: Footprint)
    requires pX >= 1 && pY >= 1 && fp.ur.x > fp.ll.x && fp.ur.y > fp.ll.y
    ensures var box := CropAsWritten(pX, pY, lng0, y0, lng1, y1, fp);
      0 <= box.left < pX && 0 <= box.right < pX && 0 <= box.upper < pY && 0 <= box.lower < pY
  {
  }

  /** The two ends of an interval sit at fractions 0 and 1 of it. */
  lemma FractionEnds(lo: real, hi: real)
    requires hi > lo
    ensures (lo - lo) / (hi - lo) == 0.0 && (hi - lo) / (hi - lo) == 1.0
  {
  }

  /** The corners of the footprint itself map to the corners of the canvas. */
  lemma PixelCorners(pX: int, pY: int, fp: Footprint)
    requires fp.ur.x > fp.ll.x && fp.ur.y > fp.ll.y
    ensures PixelX(pX, fp.ll.x, fp) == 0 && PixelX(pX, fp.ur.x, fp) == pX
    ensures PixelY(pY, fp.ur.y, fp) == 0 && PixelY(pY, fp.ll.y, fp) == pY
  {
    FractionEnds(fp.ll.x, fp.ur.x);
    FractionEnds(fp.ll.y, fp.ur.y);
    assert Trunc(pX as real) == pX && Trunc(pY as real) == pY;
  }

  /** As written, asking for exactly the grid's footprint yields a (pX - 1) x (pY - 1) box: the
      last pixel column and the bottom pixel row are cut although they lie inside the request. */
  lemma CropAsWrittenLosesEdges(pX: int, pY: int, fp: Footprint)
    requires pX >= 1 && pY >= 1 && fp.ur.x > fp.ll.x && fp.ur.y > fp.ll.y
    ensures CropAsWritten(pX, pY, fp.ll.x, fp.ll.y, fp.ur.x, fp.ur.y, fp) == CropBox(0, 0, pX - 1, pY - 1)
  {
    PixelCorners(pX, pY, fp);
  }

  /** As written, a request whose eastern edge is the grid's eastern edge (a longitude range
      ending at 180, say) gets the right edge pX - 1: the last pixel column is lost. */
  lemma CropAsWrittenEastEdge(pX: int, pY: int, lng0: real, y0: real, y1: real, fp: Footprint)
    requires pX >= 1 && pY >= 1 && fp.ur.x > fp.ll.x && fp.ur.y > fp.ll.y
    ensures CropAsWritten(pX, pY, lng0, y0, fp.ur.x, y1, fp).right == pX - 1
  {
    PixelCorners(pX, pY, fp);
  }

  /** Longitudes -180 to 180 at zoom 0 (one 256 x 256 tile): as written the box runs from
      pixel column 0 to 255, so the saved map is 255 pixels wide. */
  lemma CropAsWrittenWorld(mt: MapType, y0: real, y1: real)
    requires -90.0 <= y0 < y1 <= 90.0
    ensures var fp := CoordsOfTile(0, mt, TileIndex(0, 0));
      fp.ll == Point(-180.0, -90.0) && fp.ur == Point(180.0, 90.0) &&
      CropAsWritten(256, 256, -180.0, y0, 180.0, y1, fp).left == 0 &&
      CropAsWritten(256, 256, -180.0, y0, 180.0, y1, fp).right == 255
  {
    var fp := CoordsOfTile(0, mt, TileIndex(0, 0));
    assert Pow2(0) == 1;
    assert FlipRow(mt, 0, 0) == 0;
    PixelCorners(256, 256, fp);
    CropAsWrittenEastEdge(256, 256, -180.0, y0, y1, fp);
  }

  /** The corrected clamp: an edge coordinate into [0, p]. */
  function ClampEdge(v: int, p: int): int {
    if v > p then p else if v < 0 then 0 else v
  }

  /** The crop box with edges clamped into the canvas, [0, pX] x [0, pY]. */
  function CropBoxOf(pX: int, pY: int, lng0: real, y0: real, lng1: real, y1: real, fp: Footprint): CropBox
    requires fp.ur.x > fp.ll.x && fp.ur.y > fp.ll.y
  {
    CropBox(ClampEdge(PixelX(pX, lng0, fp), pX), ClampEdge(PixelY(pY, y1, fp), pY),
            ClampEdge(PixelX(pX, lng1, fp), pX), ClampEdge(PixelY(pY, y0, fp), pY))
  }

  /** crop with the clamps corrected, step by step as the source does it. */
  method Crop(pX: int, pY: int, lng0: real, y0: real, lng1: real, y1: real, fp: Footprint) returns (box: CropBox)
    requires pX >= 0 && pY >= 0 && fp.ur.x > fp.ll.x && fp.ur.y > fp.ll.y
    ensures box == CropBoxOf(pX, pY, lng0, y0, lng1, y1, fp)
    ensures 0 <= box.left <= pX && 0 <= box.right <= pX && 0 <= box.upper <= pY && 0 <= box.lower <= pY
  {
    var left := PixelX(pX, lng0, fp);
    var lower := PixelY(pY, y0, fp);
    var right := PixelX(pX, lng1, fp);
    var upper := PixelY(pY, y1, fp);
    if left > pX { left := pX; }
    if left < 0 { left := 0; }
    if right > pX { right := pX; }
    if right < 0 { right := 0; }
    if lower > pY { lower := pY; }
    if lower < 0 { lower := 0; }
    if upper > pY { upper := pY; }
    if upper < 0 { upper := 0; }
    box := CropBox(left, upper, right, lower);
  }

  /** Corrected, a request whose eastern edge is the grid's eastern edge keeps the last
      pixel column: the right edge is pX. */
  lemma CropBoxOfEastEdge(pX: nat, pY: nat, lng0: real, y0: real, y1: real, fp: Footprint)
    requires fp.ur.x > fp.ll.x && fp.ur.y > fp.ll.y
    ensures CropBoxOf(pX, pY, lng0, y0, fp.ur.x, y1, fp).right == pX
  {
    PixelCorners(pX, pY, fp);
  }

  /** The source's box is the corrected box with every edge that reaches the canvas's right
      or lower border pulled in by one pixel; all other edges agree. */
  lemma CropAsWrittenFromCorrected(pX: int, pY: int, lng0: real, y0: real, lng1: real, y1: real, fp: Footprint)
    requires pX >= 1 && pY >= 1 && fp.ur.x > fp.ll.x && fp.ur.y > fp.ll.y
    ensures var c, w := CropBoxOf(pX, pY, lng0, y0, lng1, y1, fp), CropAsWritten(pX, pY, lng0, y0, lng1, y1, fp);
      && w.left == (if c.left == pX then pX - 1 else c.left)
      && w.right == (if c.right == pX then pX - 1 else c.right)
      && w.upper == (if c.upper == pY then pY - 1 else c.upper)
      && w.lower == (if c.lower == pY then pY - 1 else c.lower)
  {
  }

  /** Points v1 <= v2 of [lo, hi] sit at fractions 0 <= f1 <= f2 <= 1 of it. */
  lemma FractionMonotone(lo: real, hi: real, v1: real, v2: real)
    requires lo <= v1 <= v2 <= hi && lo < hi
    ensures 0.0 <= Fraction(v1, lo, hi) <= Fraction(v2, lo, hi) <= 1.0
  {
    DivMonotone(0.0, v1 - lo, hi - lo);
    DivMonotone(v1 - lo, v2 - lo, hi - lo);
    DivMonotone(v2 - lo, hi - lo, hi - lo);
  }

  /** A non-negative fraction of p pixels is a non-negative pixel count. */
  lemma ScaledNonNegative(p: nat, f: real)
    requires 0.0 <= f
    ensures 0 <= Scaled(p, f)
  {
    ScaleMonotone(p as real, 0.0, f);
  }

  /** A larger fraction never gives fewer pixels. */
  lemma ScaledOrdered(p: nat, f1: real, f2: real)
    requires f1 <= f2
    ensures Scaled(p, f1) <= Scaled(p, f2)
  {
    TruncScaleMonotone(p as real, f1, f2);
    assert Scaled(p, f1) == Trunc(p as real * f1);
    assert Scaled(p, f2) == Trunc(p as real * f2);
  }

  /** A fraction of at most 1 of p pixels is at most p pixels. */
  lemma ScaledAtMost(p: nat, f: real)
    requires f <= 1.0
    ensures Scaled(p, f) <= p
  {
    ScaleMonotone(p as real, f, 1.0);
    TruncMonotone(p as real * f, p as real);
    TruncOfNat(p);
  }

  /** Fractions 0 <= f1 <= f2 <= 1 of p pixels, truncated, are ordered pixels in [0, p]. */
  lemma ScaledMonotone(p: nat, f1: real, f2: real)
    requires 0.0 <= f1 <= f2 <= 1.0
    ensures 0 <= Scaled(p, f1) <= Scaled(p, f2) <= p
  {
    ScaledNonNegative(p, f1);
    ScaledOrdered(p, f1, f2);
    ScaledAtMost(p, f2);
  }

  /** A longitude inside the footprint has a pixel column in [0, pX]; the column never
      decreases eastward. */
  lemma PixelXInRange(pX: nat, lng0: real, lng1: real, fp: Footprint)
    requires fp.ur.x > fp.ll.x && fp.ll.x <= lng0 <= lng1 <= fp.ur.x
    ensures 0 <= PixelX(pX, lng0, fp) <= PixelX(pX, lng1, fp) <= pX
  {
    FractionMonotone(fp.ll.x, fp.ur.x, lng0, lng1);
    ScaledMonotone(pX, Fraction(lng0, fp.ll.x, fp.ur.x), Fraction(lng1, fp.ll.x, fp.ur.x));
  }

  /** A Mercator-y inside the footprint has a pixel row in [0, pY]; the row never increases
      northward. */
  lemma PixelYInRange(pY: nat, y0: real, y1: real, fp: Footprint)
    requires fp.ur.y > fp.ll.y && fp.ll.y <= y0 <= y1 <= fp.ur.y
    ensures 0 <= PixelY(pY, y1, fp) <= PixelY(pY, y0, fp) <= pY
  {
    FractionMonotone(fp.ll.y, fp.ur.y, y0, y1);
    ScaledMonotone(pY, 1.0 - Fraction(y1, fp.ll.y, fp.ur.y), 1.0 - Fraction(y0, fp.ll.y, fp.ur.y));
  }

  /** For a box inside the footprint the clamps never move a corner: the box is the exact
      pixel image of the request, ordered, and inside the canvas. */
  lemma CropBoxOfInside(pX: nat, pY: nat, lng0: real, y0: real, lng1: real, y1: real, fp: Footprint)
    requires fp.ur.x > fp.ll.x && fp.ur.y > fp.ll.y
    requires fp.ll.x <= lng0 <= lng1 <= fp.ur.x && fp.ll.y <= y0 <= y1 <= fp.ur.y
    ensures var box := CropBoxOf(pX, pY, lng0, y0, lng1, y1, fp);
      && box == CropBox(PixelX(pX, lng0, fp), PixelY(pY, y1, fp), PixelX(pX, lng1, fp), PixelY(pY, y0, fp))
      && 0 <= box.left <= box.right <= pX && 0 <= box.upper <= box.lower <= pY
  {
    PixelXInRange(pX, lng0, lng1, fp);
    PixelYInRange(pY, y0, y1, fp);
  }

  /** Asking for exactly the grid's footprint keeps the whole canvas. */
  lemma CropBoxOfFull(pX: nat, pY: nat, fp: Footprint)
    requires fp.ur.x > fp.ll.x && fp.ur.y > fp.ll.y
    ensures CropBoxOf(pX, pY, fp.ll.x, fp.ll.y, fp.ur.x, fp.ur.y, fp) == CropBox(0, 0, pX, pY)
  {
    PixelCorners(pX, pY, fp);
  }
}
