/** The tile matrix: nX columns of nY tiles between two corner indices, (0, 0) being the
    lower-left tile, with its row direction set by the map type. */
module TileGrid {
  import opened Basics
  import opened Projection
  import QuadKey

  /** One grid cell: column, row, quad-key (satellite only, else empty) and availability. */
  datatype Tile = Tile(col: int, row: int, code: string, status: bool)

  /** Number of indices between two corner indices, both included. */
  function Span(a: int, b: int): nat {
    (if b >= a then b - a else a - b) + 1
  }

  /** Server row of grid row j: satellite rows grow with j, the other types' rows shrink. */
  function MatrixRow(mt: MapType, a: TileIndex, j: int): int {
    if mt.Satellite? then a.row + j else a.row - j
  }

  /** The tile at grid position (i, j), as first built. */
  function TileAt(zoom: nat, mt: MapType, a: TileIndex, i: int, j: int): Tile {
    var col, row := a.col + i, MatrixRow(mt, a, j);
    Tile(col, row, if mt.Satellite? then QuadKey.TileCode(zoom, col, row) else "", true)
  }

  /** A tile built field by field is the matrix cell at (i, j). */
  lemma TileAtFields(zoom: nat, mt: MapType, a: TileIndex, i: int, j: int, row: int, code: string)
    requires row == MatrixRow(mt, a, j)
    requires code == if mt.Satellite? then QuadKey.TileCode(zoom, a.col + i, row) else ""
    ensures Tile(a.col + i, row, code, true) == TileAt(zoom, mt, a, i, j)
  {
  }

  /** A cell's code is the quad-key of its own column and row for satellite maps, and
      empty otherwise. */
  lemma TileAtCode(zoom: nat, mt: MapType, a: TileIndex, i: int, j: int)
    ensures var t := TileAt(zoom, mt, a, i, j);
      t.code == if mt.Satellite? then QuadKey.TileCode(zoom, t.col, t.row) else ""
  {
  }

  /** The matrix computeTileMatrix builds from corners a and b. */
  function TileMatrix(zoom: nat, mt: MapType, a: TileIndex, b: TileIndex): seq<seq<Tile>> {
    seq(Span(a.col, b.col), i => seq(Span(a.row, b.row), j => TileAt(zoom, mt, a, i, j)))
  }

  /** Same shape and same cells, availability flags aside. */
  ghost predicate SameCells(m: seq<seq<Tile>>, m': seq<seq<Tile>>) {
    |m| == |m'| &&
    forall i :: 0 <= i < |m| ==>
      |m[i]| == |m'[i]| &&
      forall j :: 0 <= j < |m[i]| ==>
        m[i][j].col == m'[i][j].col && m[i][j].row == m'[i][j].row && m[i][j].code == m'[i][j].code
  }

  /** All tiles column by column, the order in which download visits them. */
  function Flatten(m: seq<seq<Tile>>): seq<Tile> {
    if m == [] then [] else Flatten(m[..|m| - 1]) + m[|m| - 1]
  }

  /** Flattening one more column appends that column. */
  lemma FlattenSnoc(m: seq<seq<Tile>>, i: int)
    requires 0 <= i < |m|
    ensures Flatten(m[..i + 1]) == Flatten(m[..i]) + m[i]
  {
    assert m[..i + 1][..i] == m[..i];
  }

  /** Corners of a box with lng0 <= lng1 and Mercator-y y0 <= y1 in range: both inside the
      grid, column B not left of column A, and row B on the northern side of row A in each
      type's row direction. */
  lemma CornersOrdered(zoom: nat, mt: MapType, lng0: real, y0: real, lng1: real, y1: real)
    requires -180.0 <= lng0 <= lng1 <= 180.0 && -90.0 <= y0 <= y1 <= 90.0
    ensures var a, b, n := GetTile(zoom, mt, lng0, y0), GetTile(zoom, mt, lng1, y1), Pow2(zoom);
      && 0 <= a.col <= b.col < n
      && 0 <= a.row < n && 0 <= b.row < n
      && (mt.Satellite? ==> a.row <= b.row)
      && (!mt.Satellite? ==> a.row >= b.row)
  {
    GetTileInRange(zoom, mt, lng0, y0);
    GetTileInRange(zoom, mt, lng1, y1);
    GetTileMonotone(zoom, mt, lng0, y0, lng1, y1);
  }

  /** nX * nY tiles; tile (i, j) sits at column a.col + i and row a.row + j (satellite) or
      a.row - j (others) and is available. */
  lemma TileMatrixCells(zoom: nat, mt: MapType, a: TileIndex, b: TileIndex)
    ensures var m := TileMatrix(zoom, mt, a, b);
      && |m| == Span(a.col, b.col)
      && (forall i :: 0 <= i < |m| ==> |m[i]| == Span(a.row, b.row))
      && (forall i, j :: 0 <= i < |m| && 0 <= j < |m[i]| ==>
            m[i][j].col == a.col + i && m[i][j].row == MatrixRow(mt, a, j) && m[i][j].status)
  {
    var m: seq<seq<Tile>> := TileMatrix(zoom, mt, a, b);
    forall i, j | 0 <= i < |m| && 0 <= j < |m[i]|
      ensures m[i][j].col == a.col + i && m[i][j].row == MatrixRow(mt, a, j) && m[i][j].status
    {
      assert m[i][j] == TileAt(zoom, mt, a, i, j);
    }
  }

  /** Two grid positions never share a (column, row). */
  lemma TileMatrixDistinct(zoom: nat, mt: MapType, a: TileIndex, b: TileIndex)
    ensures var m := TileMatrix(zoom, mt, a, b);
      forall i1, j1, i2, j2 ::
        0 <= i1 < |m| && 0 <= j1 < |m[i1]| && 0 <= i2 < |m| && 0 <= j2 < |m[i2]| &&
        (i1 != i2 || j1 != j2) ==>
        m[i1][j1].col != m[i2][j2].col || m[i1][j1].row != m[i2][j2].row
  {
    TileMatrixCells(zoom, mt, a, b);
  }

  /** For ordered corners the matrix covers exactly the rectangle between them, both
      corners included. */
  lemma TileMatrixCovers(zoom: nat, mt: MapType, a: TileIndex, b: TileIndex, c: int, r: int)
    requires a.col <= b.col
    requires mt.Satellite? ==> a.row <= b.row
    requires !mt.Satellite? ==> a.row >= b.row
    ensures var m := TileMatrix(zoom, mt, a, b);
      (exists i, j :: 0 <= i < |m| && 0 <= j < |m[i]| && m[i][j].col == c && m[i][j].row == r)
      <==>
      (a.col <= c <= b.col &&
       (if mt.Satellite? then a.row <= r <= b.row else b.row <= r <= a.row))
  {
    var m: seq<seq<Tile>> := TileMatrix(zoom, mt, a, b);
    if a.col <= c <= b.col && (if mt.Satellite? then a.row <= r <= b.row else b.row <= r <= a.row) {
      var i: int := c - a.col;
      var j: int := if mt.Satellite? then r - a.row else a.row - r;
      assert m[i][j].col == c && m[i][j].row == r;
    }
  }

  /** The first tile is corner a and the last tile is corner b. */
  lemma TileMatrixCorners(zoom: nat, mt: MapType, a: TileIndex, b: TileIndex)
    requires a.col <= b.col
    requires mt.Satellite? ==> a.row <= b.row
    requires !mt.Satellite? ==> a.row >= b.row
    ensures var m := TileMatrix(zoom, mt, a, b);
      && m[0][0].col == a.col && m[0][0].row == a.row
      && m[|m| - 1][|m[|m| - 1]| - 1].col == b.col
      && m[|m| - 1][|m[|m| - 1]| - 1].row == b.row
  {
  }

  /** No two tiles of the sequence share a (column, row). */
  ghost predicate DistinctCells(f: seq<Tile>) {
    forall p, q :: 0 <= p < q < |f| ==> f[p].col != f[q].col || f[p].row != f[q].row
  }

  /** Flattening the first k columns of a grid whose column i holds column index c0 + i and
      whose columns have distinct rows gives tiles with pairwise distinct (column, row). */
  lemma {:induction false} FlattenDistinct(m: seq<seq<Tile>>, c0: int, k: nat)
    requires k <= |m|
    requires forall i, j :: 0 <= i < |m| && 0 <= j < |m[i]| ==> m[i][j].col == c0 + i
    requires forall i, j1, j2 :: 0 <= i < |m| && 0 <= j1 < j2 < |m[i]| ==> m[i][j1].row != m[i][j2].row
    ensures forall p :: 0 <= p < |Flatten(m[..k])| ==> c0 <= Flatten(m[..k])[p].col < c0 + k
    ensures DistinctCells(Flatten(m[..k]))
  {
    if k > 0 {
      FlattenDistinct(m, c0, k - 1);
      assert m[..k][..k - 1] == m[..k - 1];
      var f0 := Flatten(m[..k - 1]);
      var f := Flatten(m[..k]);
      assert f == f0 + m[k - 1];
      forall p | 0 <= p < |f|
        ensures c0 <= f[p].col < c0 + k
      {
        if p < |f0| {
          assert f[p] == f0[p];
        } else {
          assert f[p] == m[k - 1][p - |f0|];
        }
      }
      forall p, q | 0 <= p < q < |f|
        ensures f[p].col != f[q].col || f[p].row != f[q].row
      {
        if q < |f0| {
          assert f[p] == f0[p] && f[q] == f0[q];
        } else if p < |f0| {
          assert f[p] == f0[p] && f[q] == m[k - 1][q - |f0|];
          assert f[p].col < c0 + k - 1 == f[q].col;
        } else {
          assert f[p] == m[k - 1][p - |f0|] && f[q] == m[k - 1][q - |f0|];
          assert m[k - 1][p - |f0|].row != m[k - 1][q - |f0|].row;
        }
      }
    }
  }

  /** Membership in the flattened matrix: every visited tile is some cell (i, j). */
  lemma {:induction false} FlattenMember(m: seq<seq<Tile>>, p: nat)
    requires p < |Flatten(m)|
    ensures exists i, j :: 0 <= i < |m| && 0 <= j < |m[i]| && Flatten(m)[p] == m[i][j]
  {
    var f0 := Flatten(m[..|m| - 1]);
    assert Flatten(m) == f0 + m[|m| - 1];
    if p < |f0| {
      FlattenMember(m[..|m| - 1], p);
      var i, j :| 0 <= i < |m| - 1 && 0 <= j < |m[..|m| - 1][i]| && f0[p] == m[..|m| - 1][i][j];
      assert Flatten(m)[p] == m[i][j];
    } else {
      assert Flatten(m)[p] == m[|m| - 1][p - |f0|];
    }
  }

  /** Every cell of the matrix is met by the column-by-column visit. */
  lemma {:induction false} FlattenComplete(m: seq<seq<Tile>>, i: int, j: int)
    requires 0 <= i < |m| && 0 <= j < |m[i]|
    ensures m[i][j] in Flatten(m)
  {
    var init := m[..|m| - 1];
    assert Flatten(m) == Flatten(init) + m[|m| - 1];
    if i < |m| - 1 {
      assert m[i] == init[i];
      FlattenComplete(init, i, j);
    } else {
      assert Flatten(m)[|Flatten(init)| + j] == m[i][j];
    }
  }
}
