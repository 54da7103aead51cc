/** StitchedMap: one map request (a longitude range, a Mercator-y range, a zoom level and a
    map type) and the state its steps build up: the tile matrix, the canvas size. */
module Stitcher {
  import opened Basics
  import opened Projection
  import opened TileGrid
  import opened Naming
  import opened Planning
  import opened Layout
  import QuadKey

  /** Why generate stops without a map. */
  datatype Failure = InvalidLatitudeRange | InvalidLongitudeRange | InvalidZoom | UnknownMapType

  /** What one run hands to the download threads and the image library: the queued jobs,
      the pastes onto the canvas, the crop box and the output path. */
  datatype Output = Output(queue: seq<Job>, pastes: seq<Paste>, box: CropBox, path: string)

  datatype Outcome = Done(out: Output) | Failed(reason: Failure)

  /** The largest zoom level generate accepts. */
  const MaxZoom := 19

  class StitchedMap {
    const latVal: (real, real)
    const lonVal: (real, real)
    /** Mercator-y of the two latitudes, in latitude-like degrees. */
    const yVal: (real, real)
    const zoom: nat
    const maptype: RequestType
    const prefixes: ModePrefixes

    var nX: int
    var nY: int
    var tiles: seq<seq<Tile>>
    var pX: int
    var pY: int

    constructor (latVal: (real, real), lonVal: (real, real), yVal: (real, real), zoom: nat,
                 maptype: RequestType, prefixes: ModePrefixes)
      ensures this.latVal == latVal && this.lonVal == lonVal && this.yVal == yVal
      ensures this.zoom == zoom && this.maptype == maptype && this.prefixes == prefixes
      ensures nX == 0 && nY == 0 && tiles == [] && pX == 0 && pY == 0
    {
      this.latVal := latVal;
      this.lonVal := lonVal;
      this.yVal := yVal;
      this.zoom := zoom;
      this.maptype := maptype;
      this.prefixes := prefixes;
      nX, nY, tiles, pX, pY := 0, 0, [], 0, 0;
    }

    /** The lower-left corner tile of the request. */
    function CornerA(): TileIndex {
      GetTile(zoom, maptype, lonVal.0, yVal.0)
    }

    /** The upper-right corner tile of the request. */
    function CornerB(): TileIndex {
      GetTile(zoom, maptype, lonVal.1, yVal.1)
    }

    /** The matrix of the request's corner tiles. */
    function Matrix(): seq<seq<Tile>> {
      TileMatrix(zoom, maptype, CornerA(), CornerB())
    }

    function Ctx(cached: set<string>): Context {
      Context(prefixes, maptype, zoom, cached)
    }

    /** The request's matrix has been built: nX columns of nY tiles, the matrix of the two
        corners up to availability flags. */
    ghost predicate Valid()
      reads this
    {
      nX == |tiles| && nX >= 1 && nY >= 1 &&
      (forall i :: 0 <= i < nX ==> |tiles[i]| == nY) &&
      SameCells(tiles, TileMatrix(zoom, maptype, CornerA(), CornerB()))
    }

    /** One step of computeTileMatrix's inner loop: tile (i, j) of the matrix anchored at
        tileA, with its quad-key for satellite maps, marked available. */
    method MakeTile(tileA: TileIndex, i: int, j: int) returns (t: Tile)
      ensures t == TileAt(zoom, maptype, tileA, i, j)
    {
      var lat: int;
      var code: string;
      if maptype.Satellite? {
        lat := tileA.row + j;
        code := QuadKey.GenSatelliteTileCode(zoom, tileA.col + i, lat);
      } else {
        lat := tileA.row - j;
        code := "";
      }
      TileAtFields(zoom, maptype, tileA, i, j, lat, code);
      t := Tile(tileA.col + i, lat, code, true);
    }

    /** The inner loop of computeTileMatrix: column i of the matrix anchored at tileA, ny
        tiles from grid row 0 up. */
    method MakeColumn(tileA: TileIndex, i: int, ny: int) returns (column: seq<Tile>)
      requires ny >= 0
      ensures |column| == ny
      ensures forall j :: 0 <= j < |column| ==> column[j] == TileAt(zoom, maptype, tileA, i, j)
    {
      column := [];
      for j := 0 to ny
        invariant |column| == j
        invariant forall j' :: 0 <= j' < j ==> column[j'] == TileAt(zoom, maptype, tileA, i, j')
      {
        var t := MakeTile(tileA, i, j);
        column := column + [t];
      }
    }

    /** computeTileMatrix: the corner tiles, the matrix size and the matrix itself. */
    method ComputeTileMatrix()
      modifies this`nX, this`nY, this`tiles
      ensures tiles == TileMatrix(zoom, maptype, CornerA(), CornerB())
      ensures nX == Span(CornerA().col, CornerB().col) && nY == Span(CornerA().row, CornerB().row)
      ensures Valid()
    {
      var tileA := GetTile(zoom, maptype, lonVal.0, yVal.0);
      var tileB := GetTile(zoom, maptype, lonVal.1, yVal.1);
      var nx := (if tileB.col >= tileA.col then tileB.col - tileA.col else tileA.col - tileB.col) + 1;
      var ny := (if tileB.row >= tileA.row then tileB.row - tileA.row else tileA.row - tileB.row) + 1;
      nX, nY := nx, ny;
      ghost var target := TileMatrix(zoom, maptype, tileA, tileB);
      tiles := [];
      for i := 0 to nx
        invariant nX == nx && nY == ny
        invariant tiles == target[..i]
      {
        var column := MakeColumn(tileA, i, ny);
        assert column == target[i];
        tiles := tiles + [column];
        assert target[..i + 1] == target[..i] + [target[i]];
      }
      assert target[..nx] == target;
    }

    /** One turn of download's loop, on tile (i, j): use the cached file, queue the tile's
        job, or report that the map type is unknown. The source's branch that marks a tile
        unavailable on an empty URL cannot be taken: every URL builder's result is non-empty. */
    method VisitTile(i: int, j: int, cached: set<string>, queue: seq<Job>) returns (queue': seq<Job>, quit: bool)
      requires 0 <= i < |tiles| && 0 <= j < |tiles[i]|
      ensures quit <==> PlanTile(Ctx(cached), tiles[i][j]).Quit?
      ensures queue' == queue + JobOf(Ctx(cached), tiles[i][j])
      ensures !PlanTile(Ctx(cached), tiles[i][j]).MarkUnavailable?
    {
      ghost var ctx := Ctx(cached);
      var tile := tiles[i][j];
      var identifier := MakeIdentifier(maptype, zoom, tile);
      assert identifier == Identifier(ctx, tile);
      queue', quit := queue, false;
      if identifier !in cached {
        var url: string;
        match maptype {
          case Standard => url := GenMapUrl(prefixes, zoom, tile);
          case Satellite => url := GenSatUrl(prefixes, tile);
          case Terrain => url := GenPhyUrl(prefixes, zoom, tile);
          case Sky => url := GenSkyUrl(prefixes, zoom, tile);
          case Unknown(_) =>
            assert PlanTile(ctx, tile) == Quit;
            assert queue + [] == queue;
            return queue, true;
        }
        PlanTileWithUrl(ctx, tile, url);
        if url != "" {
          queue' := queue + [Job(url, identifier)];
        } else {
          assert false;
        }
      } else {
        PlanTileCached(ctx, tile);
        assert queue + [] == queue;
      }
    }

    /** The inner loop of download, over column i. It stops early (quit) on the first
        uncached tile of an unknown map type. */
    method VisitColumn(i: int, cached: set<string>, queue: seq<Job>) returns (queue': seq<Job>, quit: bool)
      requires 0 <= i < |tiles|
      ensures quit <==> ColumnQuits(Ctx(cached), tiles[i])
      ensures !quit ==> queue' == queue + JobsOf(Ctx(cached), tiles[i])
    {
      ghost var c, ctx := tiles[i], Ctx(cached);
      assert c[..0] == [];
      queue', quit := queue, false;
      for j := 0 to |tiles[i]|
        invariant queue' == queue + JobsOf(ctx, c[..j])
        invariant !ColumnQuits(ctx, c[..j])
        invariant !quit
      {
        var q, stop := VisitTile(i, j, cached, queue');
        if stop {
          ColumnQuitsAt(ctx, c, j);
          quit := true;
          break;
        }
        ColumnQuitsSnoc(ctx, c, j);
        JobsOfPrefix(ctx, c, j);
        queue' := q;
      }
      if !quit {
        assert c[..|c|] == c;
      }
    }

    /** The planning loop of download, column by column: the jobs it puts on the queue, in
        order. On an unknown map type it stops (ok == false) at the first uncached tile. */
    method Download(cached: set<string>) returns (queue: seq<Job>, ok: bool)
      ensures ok <==> !Quits(Ctx(cached), tiles)
      ensures ok ==> queue == JobsOf(Ctx(cached), Flatten(tiles))
      ensures !ok ==> queue == []
    {
      ghost var ctx := Ctx(cached);
      assert tiles[..0] == [];
      queue := [];
      for i := 0 to |tiles|
        invariant queue == JobsOf(ctx, Flatten(tiles[..i]))
        invariant !Quits(ctx, tiles[..i])
      {
        QuitsSnoc(ctx, tiles, i);
        FlattenSnoc(tiles, i);
        JobsOfAppend(ctx, Flatten(tiles[..i]), tiles[i]);
        var quit;
        queue, quit := VisitColumn(i, cached, queue);
        if quit {
          assert Quits(ctx, tiles) by {
            assert tiles[i] == tiles[..i + 1][i];
            assert Quits(ctx, tiles[..i + 1]);
          }
          return [], false;
        }
      }
      assert tiles[..|tiles|] == tiles;
      ok := true;
    }

    /** The inner loop of stitch, over column i: one paste per available tile, bottom row
        first. */
    method PasteColumn(i: int, pastes: seq<Paste>) returns (pastes': seq<Paste>)
      requires 0 <= i < |tiles|
      ensures pastes' == pastes + ColumnPastes(maptype, zoom, tiles[i], i, pY)
    {
      ghost var c := tiles[i];
      pastes' := pastes;
      for j := 0 to |tiles[i]|
        invariant pastes' == pastes + ColumnPastes(maptype, zoom, c[..j], i, pY)
      {
        var tile := tiles[i][j];
        assert c[..j + 1][..j] == c[..j];
        assert ColumnPastes(maptype, zoom, c[..j + 1], i, pY) == ColumnPastes(maptype, zoom, c[..j], i, pY) +
          (if tile.status then [PasteOf(maptype, zoom, tile, i, j, pY)] else []);
        if !tile.status {
          continue;
        }
        var cX := TileSize * i;
        var cY := pY - TileSize * (j + 1);
        pastes' := pastes' + [Paste(MakeIdentifier(maptype, zoom, tile), cX, cY)];
      }
      assert c[..|c|] == c;
    }

    /** The outer loop of stitch: the pastes of every column, left to right. */
    method PasteAll() returns (pastes: seq<Paste>)
      ensures pastes == Pastes(maptype, zoom, tiles, pY)
    {
      pastes := [];
      for i := 0 to |tiles|
        invariant pastes == Pastes(maptype, zoom, tiles[..i], pY)
      {
        pastes := PasteColumn(i, pastes);
        assert tiles[..i + 1][..i] == tiles[..i];
      }
      assert tiles[..|tiles|] == tiles;
    }

    /** stitch: the canvas size, one paste per available tile, the corrected crop box and the
        output path named after the lower-left tile. */
    method Stitch() returns (pastes: seq<Paste>, box: CropBox, path: string)
      requires Valid()
      modifies this`pX, this`pY
      ensures pX == TileSize * nX && pY == TileSize * nY
      ensures pastes == Pastes(maptype, zoom, tiles, pY)
      ensures var fp := GridFootprint(zoom, maptype, tiles);
        && fp.ur.x > fp.ll.x && fp.ur.y > fp.ll.y
        && box == CropBoxOf(pX, pY, lonVal.0, yVal.0, lonVal.1, yVal.1, fp)
      ensures path == "./stitched_" + MakeIdentifier(maptype, zoom, tiles[0][0]) + ".jpg"
    {
      pX := TileSize * nX;
      pY := TileSize * nY;
      pastes := PasteAll();
      GridFootprintPositive(zoom, maptype, tiles, CornerA(), CornerB());
      box := Crop(pX, pY, lonVal.0, yVal.0, lonVal.1, yVal.1, GridFootprint(zoom, maptype, tiles));
      path := "./stitched_" + MakeIdentifier(maptype, zoom, tiles[0][0]) + ".jpg";
    }

    /** generate: reject an empty latitude or longitude range, build the tile matrix, reject a
        zoom above MaxZoom, plan the downloads (failing on an unknown map type) and stitch. A
        request that passes all three checks and whose plan does not quit succeeds. A range
        error changes nothing, and no failure sets the canvas size. */
    method Generate(cached: set<string>) returns (r: Outcome)
      modifies this`nX, this`nY, this`tiles, this`pX, this`pY
      ensures latVal.0 >= latVal.1 ==> r == Failed(InvalidLatitudeRange)
      ensures latVal.0 < latVal.1 && lonVal.0 >= lonVal.1 ==> r == Failed(InvalidLongitudeRange)
      ensures latVal.0 < latVal.1 && lonVal.0 < lonVal.1 && zoom > MaxZoom ==> r == Failed(InvalidZoom)
      ensures latVal.0 < latVal.1 && lonVal.0 < lonVal.1 && zoom <= MaxZoom ==>
        (r == Failed(UnknownMapType) <==> Quits(Ctx(cached), Matrix()))
      ensures latVal.0 < latVal.1 && lonVal.0 < lonVal.1 && zoom <= MaxZoom && !Quits(Ctx(cached), Matrix()) ==>
        r.Done?
      ensures latVal.0 < latVal.1 && lonVal.0 < lonVal.1 ==> Valid() && tiles == Matrix()
      ensures latVal.0 >= latVal.1 || lonVal.0 >= lonVal.1 ==>
        nX == old(nX) && nY == old(nY) && tiles == old(tiles)
      ensures !r.Done? ==> pX == old(pX) && pY == old(pY)
      ensures r.Done? ==> Valid() && tiles == Matrix() && pX == TileSize * nX && pY == TileSize * nY
      ensures r.Done? ==> r.out.queue == JobsOf(Ctx(cached), Flatten(tiles))
      ensures r.Done? ==> r.out.pastes == Pastes(maptype, zoom, tiles, pY)
      ensures r.Done? ==>
        var fp := GridFootprint(zoom, maptype, tiles);
        && fp.ur.x > fp.ll.x && fp.ur.y > fp.ll.y
        && r.out.box == CropBoxOf(pX, pY, lonVal.0, yVal.0, lonVal.1, yVal.1, fp)
      ensures r.Done? ==> r.out.path == "./stitched_" + MakeIdentifier(maptype, zoom, tiles[0][0]) + ".jpg"
    {
      if latVal.0 >= latVal.1 {
        return Failed(InvalidLatitudeRange);
      }
      if lonVal.0 >= lonVal.1 {
        return Failed(InvalidLongitudeRange);
      }
      ComputeTileMatrix();
      if zoom > MaxZoom {
        return Failed(InvalidZoom);
      }
      var queue, ok := Download(cached);
      if !ok {
        return Failed(UnknownMapType);
      }
      var pastes, box, path := Stitch();
      return Done(Output(queue, pastes, box, path));
    }
  }
}
