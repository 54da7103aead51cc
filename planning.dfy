/** The planning half of download: for each tile, column by column, use the cached file,
    enqueue a (url, identifier) job, mark the tile unavailable, or give up on an unknown map
    type. Files already on disk are the set of identifiers `cached`; the queue is the
    sequence of jobs in the order they are put. */
module Planning {
  import opened Basics
  import opened Projection
  import opened TileGrid
  import opened Naming
  import QuadKey

  datatype Job = Job(url: string, identifier: string)

  /** What the loop does with one tile. */
  datatype Step = UseCached | Enqueue(job: Job) | MarkUnavailable | Quit

  /** Everything the loop reads besides the tiles. */
  datatype Context = Context(prefixes: ModePrefixes, maptype: MapType, zoom: nat, cached: set<string>)

  function Identifier(ctx: Context, t: Tile): string {
    MakeIdentifier(ctx.maptype, ctx.zoom, t)
  }

  /** One turn of the loop: a cached identifier wins, then the URL for the map type; an empty
      URL marks the tile, no URL at all (unknown type) quits. */
  function PlanTile(ctx: Context, t: Tile): Step {
    if Identifier(ctx, t) in ctx.cached then UseCached
    else match TileUrl(ctx.prefixes, ctx.maptype, ctx.zoom, t)
      case None => Quit
      case Some(url) => if url != "" then Enqueue(Job(url, Identifier(ctx, t))) else MarkUnavailable
  }

  function JobOf(ctx: Context, t: Tile): seq<Job> {
    match PlanTile(ctx, t)
    case Enqueue(j) => [j]
    case _ => []
  }

  /** The queue after the loop has visited ts in order. */
  function JobsOf(ctx: Context, ts: seq<Tile>): seq<Job> {
    if ts == [] then [] else JobsOf(ctx, ts[..|ts| - 1]) + JobOf(ctx, ts[|ts| - 1])
  }

  /** The tile as the loop leaves it. */
  function AfterPlan(ctx: Context, t: Tile): Tile {
    if PlanTile(ctx, t).MarkUnavailable? then t.(status := false) else t
  }

  /** A column as the loop leaves it. */
  function MarkColumn(ctx: Context, c: seq<Tile>): seq<Tile> {
    seq(|c|, l requires 0 <= l < |c| => AfterPlan(ctx, c[l]))
  }

  /** The matrix as the loop leaves it. */
  function MarkAll(ctx: Context, m: seq<seq<Tile>>): seq<seq<Tile>> {
    seq(|m|, i requires 0 <= i < |m| => MarkColumn(ctx, m[i]))
  }

  /** Some tile of the column makes the loop quit. */
  ghost predicate ColumnQuits(ctx: Context, c: seq<Tile>) {
    c != [] && (ColumnQuits(ctx, c[..|c| - 1]) || PlanTile(ctx, c[|c| - 1]).Quit?)
  }

  /** Some tile of the matrix makes the loop quit. */
  ghost predicate Quits(ctx: Context, m: seq<seq<Tile>>) {
    exists i :: 0 <= i < |m| && ColumnQuits(ctx, m[i])
  }

  ghost predicate DistinctIds(ctx: Context, ts: seq<Tile>) {
    forall p, q :: 0 <= p < q < |ts| ==> Identifier(ctx, ts[p]) != Identifier(ctx, ts[q])
  }

  /** For a known map type a tile is enqueued exactly when its identifier is not cached, and
      never marked unavailable; an unknown type quits on the first uncached tile. */
  lemma PlanTileCases(ctx: Context, t: Tile)
    ensures !ctx.maptype.Unknown? ==>
      (PlanTile(ctx, t).Enqueue? <==> Identifier(ctx, t) !in ctx.cached) &&
      !PlanTile(ctx, t).MarkUnavailable? && !PlanTile(ctx, t).Quit?
    ensures ctx.maptype.Unknown? ==>
      (PlanTile(ctx, t).Quit? <==> Identifier(ctx, t) !in ctx.cached) && !PlanTile(ctx, t).Enqueue?
    ensures PlanTile(ctx, t).Enqueue? ==>
      PlanTile(ctx, t).job == Job(TileUrl(ctx.prefixes, ctx.maptype, ctx.zoom, t).value, Identifier(ctx, t))
  {
    TileUrlDefined(ctx.prefixes, ctx.maptype, ctx.zoom, t);
  }

  /** A planned job carries the tile's identifier. */
  lemma EnqueuedIdentifier(ctx: Context, t: Tile, j: Job)
    requires PlanTile(ctx, t) == Enqueue(j)
    ensures j.identifier == Identifier(ctx, t)
  {
  }

  /** Every queued job is the job the loop planned for one of the visited tiles, so its
      identifier is never a cached one. */
  lemma {:induction false} JobsSound(ctx: Context, ts: seq<Tile>)
    ensures forall k :: 0 <= k < |JobsOf(ctx, ts)| ==>
      exists p :: 0 <= p < |ts| && PlanTile(ctx, ts[p]) == Enqueue(JobsOf(ctx, ts)[k])
    ensures forall k :: 0 <= k < |JobsOf(ctx, ts)| ==> JobsOf(ctx, ts)[k].identifier !in ctx.cached
  {
    if ts != [] {
      var init := ts[..|ts| - 1];
      JobsSound(ctx, init);
      var last := ts[|ts| - 1];
      assert JobsOf(ctx, ts) == JobsOf(ctx, init) + JobOf(ctx, last);
      forall k | 0 <= k < |JobsOf(ctx, ts)|
        ensures exists p :: 0 <= p < |ts| && PlanTile(ctx, ts[p]) == Enqueue(JobsOf(ctx, ts)[k])
      {
        if k < |JobsOf(ctx, init)| {
          var p :| 0 <= p < |init| && PlanTile(ctx, init[p]) == Enqueue(JobsOf(ctx, init)[k]);
          assert JobsOf(ctx, ts)[k] == JobsOf(ctx, init)[k];
          assert ts[p] == init[p];
        } else {
          assert JobsOf(ctx, ts)[k] == JobOf(ctx, last)[0];
          assert PlanTile(ctx, ts[|ts| - 1]) == Enqueue(JobsOf(ctx, ts)[k]);
        }
      }
    } else {
      assert JobsOf(ctx, ts) == [];
    }
  }

  /** Every tile the loop plans to enqueue is in the queue. */
  lemma {:induction false} JobsComplete(ctx: Context, ts: seq<Tile>)
    ensures forall p :: 0 <= p < |ts| && PlanTile(ctx, ts[p]).Enqueue? ==>
      PlanTile(ctx, ts[p]).job in JobsOf(ctx, ts)
  {
    if ts != [] {
      var init := ts[..|ts| - 1];
      JobsComplete(ctx, init);
      forall p | 0 <= p < |ts| && PlanTile(ctx, ts[p]).Enqueue?
        ensures PlanTile(ctx, ts[p]).job in JobsOf(ctx, ts)
      {
        if p < |init| {
          assert ts[p] == init[p];
        }
      }
    }
  }

  /** Tiles with distinct identifiers give jobs with distinct identifiers: nothing is queued
      twice. */
  lemma {:induction false} JobsOnce(ctx: Context, ts: seq<Tile>)
    requires DistinctIds(ctx, ts)
    ensures forall k1, k2 :: 0 <= k1 < k2 < |JobsOf(ctx, ts)| ==>
      JobsOf(ctx, ts)[k1].identifier != JobsOf(ctx, ts)[k2].identifier
  {
    if ts != [] {
      var init := ts[..|ts| - 1];
      assert DistinctIds(ctx, init) by {
        forall p, q | 0 <= p < q < |init|
          ensures Identifier(ctx, init[p]) != Identifier(ctx, init[q])
        {
          assert init[p] == ts[p] && init[q] == ts[q];
        }
      }
      JobsOnce(ctx, init);
      JobsSound(ctx, init);
      var ji, js := JobsOf(ctx, init), JobsOf(ctx, ts);
      forall k1, k2 | 0 <= k1 < k2 < |js|
        ensures js[k1].identifier != js[k2].identifier
      {
        if k2 >= |ji| {
          var p :| 0 <= p < |init| && PlanTile(ctx, init[p]) == Enqueue(ji[k1]);
          var last := ts[|ts| - 1];
          assert js == ji + JobOf(ctx, last);
          assert js[k1] == ji[k1];
          assert PlanTile(ctx, last) == Enqueue(js[k2]);
          EnqueuedIdentifier(ctx, init[p], js[k1]);
          EnqueuedIdentifier(ctx, last, js[k2]);
          assert init[p] == ts[p];
          assert Identifier(ctx, ts[p]) != Identifier(ctx, last);
        } else {
          assert js[k1] == ji[k1] && js[k2] == ji[k2];
        }
      }
    }
  }

  /** Every URL the builders produce is non-empty, so no tile is ever marked unavailable and
      the loop leaves the matrix as it found it; for a known map type it never quits either. */
  lemma NothingMarked(ctx: Context, m: seq<seq<Tile>>)
    ensures MarkAll(ctx, m) == m
    ensures !ctx.maptype.Unknown? ==> !Quits(ctx, m)
  {
    forall i, j | 0 <= i < |m| && 0 <= j < |m[i]|
      ensures AfterPlan(ctx, m[i][j]) == m[i][j]
      ensures !ctx.maptype.Unknown? ==> !PlanTile(ctx, m[i][j]).Quit?
    {
      PlanTileCases(ctx, m[i][j]);
      TileUrlDefined(ctx.prefixes, ctx.maptype, ctx.zoom, m[i][j]);
    }
    assert forall i :: 0 <= i < |m| ==> MarkAll(ctx, m)[i] == m[i];
    forall i | 0 <= i < |m|
      ensures !ctx.maptype.Unknown? ==> !ColumnQuits(ctx, m[i])
    {
      ColumnQuitsSome(ctx, m[i]);
    }
  }

  /** An unknown map type queues nothing. */
  lemma {:induction false} UnknownQueuesNothing(ctx: Context, ts: seq<Tile>)
    requires ctx.maptype.Unknown?
    ensures JobsOf(ctx, ts) == []
  {
    if ts != [] {
      UnknownQueuesNothing(ctx, ts[..|ts| - 1]);
      PlanTileCases(ctx, ts[|ts| - 1]);
    } else {
      assert JobsOf(ctx, ts) == [];
    }
  }

  /** The turn of an uncached tile whose map type gives URL url. */
  lemma PlanTileWithUrl(ctx: Context, t: Tile, url: string)
    requires Identifier(ctx, t) !in ctx.cached
    requires TileUrl(ctx.prefixes, ctx.maptype, ctx.zoom, t) == Some(url)
    ensures url != "" ==>
      PlanTile(ctx, t) == Enqueue(Job(url, Identifier(ctx, t))) &&
      JobOf(ctx, t) == [Job(url, Identifier(ctx, t))] && AfterPlan(ctx, t) == t
    ensures url == "" ==>
      PlanTile(ctx, t) == MarkUnavailable && JobOf(ctx, t) == [] && AfterPlan(ctx, t) == t.(status := false)
  {
  }

  /** The turn of a cached tile changes nothing. */
  lemma PlanTileCached(ctx: Context, t: Tile)
    requires Identifier(ctx, t) in ctx.cached
    ensures PlanTile(ctx, t) == UseCached && JobOf(ctx, t) == [] && AfterPlan(ctx, t) == t
  {
  }

  /** The queue grows by the job of the tile just visited. */
  lemma JobsOfSnoc(ctx: Context, ts: seq<Tile>, t: Tile)
    ensures JobsOf(ctx, ts + [t]) == JobsOf(ctx, ts) + JobOf(ctx, t)
  {
    assert (ts + [t])[..|ts|] == ts;
  }

  /** Visiting one more tile of a column adds that tile's job to the queue. */
  lemma JobsOfPrefix(ctx: Context, c: seq<Tile>, j: int)
    requires 0 <= j < |c|
    ensures JobsOf(ctx, c[..j + 1]) == JobsOf(ctx, c[..j]) + JobOf(ctx, c[j])
  {
    assert c[..j + 1][..j] == c[..j];
  }

  /** The queue of two stretches of tiles is the first one's followed by the second's. */
  lemma {:induction false} JobsOfAppend(ctx: Context, ts: seq<Tile>, us: seq<Tile>)
    ensures JobsOf(ctx, ts + us) == JobsOf(ctx, ts) + JobsOf(ctx, us)
  {
    if us == [] {
      assert ts + us == ts;
    } else {
      var init, last := us[..|us| - 1], us[|us| - 1];
      assert us == init + [last];
      Assoc(ts, init, [last]);
      JobsOfAppend(ctx, ts, init);
      JobsOfSnoc(ctx, ts + init, last);
      JobsOfSnoc(ctx, init, last);
      Assoc(JobsOf(ctx, ts), JobsOf(ctx, init), JobOf(ctx, last));
    }
  }

  /** A column prefix quits exactly when a shorter one did or its last tile does. */
  lemma ColumnQuitsSnoc(ctx: Context, c: seq<Tile>, j: int)
    requires 0 <= j < |c|
    ensures !ColumnQuits(ctx, c[..0])
    ensures ColumnQuits(ctx, c[..j + 1]) <==> ColumnQuits(ctx, c[..j]) || PlanTile(ctx, c[j]).Quit?
  {
    assert c[..0] == [];
    assert c[..j + 1][..j] == c[..j];
  }

  /** A column quits exactly when one of its tiles does. */
  lemma {:induction false} ColumnQuitsSome(ctx: Context, c: seq<Tile>)
    ensures ColumnQuits(ctx, c) <==> exists l :: 0 <= l < |c| && PlanTile(ctx, c[l]).Quit?
  {
    if c != [] {
      var init := c[..|c| - 1];
      ColumnQuitsSome(ctx, init);
      if ColumnQuits(ctx, init) {
        var l :| 0 <= l < |init| && PlanTile(ctx, init[l]).Quit?;
        assert c[l] == init[l];
      }
      if exists l :: 0 <= l < |c| && PlanTile(ctx, c[l]).Quit? {
        var l :| 0 <= l < |c| && PlanTile(ctx, c[l]).Quit?;
        if l < |c| - 1 {
          assert init[l] == c[l];
        }
      }
    }
  }

  /** A column with a quitting tile quits. */
  lemma ColumnQuitsAt(ctx: Context, c: seq<Tile>, j: int)
    requires 0 <= j < |c| && PlanTile(ctx, c[j]).Quit?
    ensures ColumnQuits(ctx, c)
  {
    ColumnQuitsSome(ctx, c);
  }

  /** A matrix prefix quits exactly when a shorter one did or its last column does. */
  lemma QuitsSnoc(ctx: Context, m: seq<seq<Tile>>, i: int)
    requires 0 <= i < |m|
    ensures !Quits(ctx, m[..0])
    ensures Quits(ctx, m[..i + 1]) <==> Quits(ctx, m[..i]) || ColumnQuits(ctx, m[i])
  {
    if ColumnQuits(ctx, m[i]) {
      assert m[..i + 1][i] == m[i];
    }
    if Quits(ctx, m[..i + 1]) {
      var k :| 0 <= k < i + 1 && ColumnQuits(ctx, m[..i + 1][k]);
      if k < i {
        assert m[..i][k] == m[..i + 1][k];
      }
    }
    if Quits(ctx, m[..i]) {
      var k :| 0 <= k < i && ColumnQuits(ctx, m[..i][k]);
      assert m[..i + 1][k] == m[..i][k];
    }
  }

  /** A tile of the matrix of a box inside the world: in-range indices, and the quad-key of
      its indices for satellite tiles. */
  ghost predicate InWorld(zoom: nat, mt: MapType, t: Tile) {
    0 <= t.col < Pow2(zoom) && 0 <= t.row < Pow2(zoom) &&
    t.code == (if mt.Satellite? then QuadKey.TileCode(zoom, t.col, t.row) else "")
  }

  ghost predicate AllInWorld(zoom: nat, mt: MapType, f: seq<Tile>) {
    forall p :: 0 <= p < |f| ==> InWorld(zoom, mt, f[p])
  }

  /** Two tiles inside the world at different places have different identifiers. */
  lemma InWorldIdsDistinct(ctx: Context, t1: Tile, t2: Tile)
    requires InWorld(ctx.zoom, ctx.maptype, t1) && InWorld(ctx.zoom, ctx.maptype, t2)
    requires t1.col != t2.col || t1.row != t2.row
    ensures Identifier(ctx, t1) != Identifier(ctx, t2)
  {
    if Identifier(ctx, t1) == Identifier(ctx, t2) {
      IdentifierInjective(ctx.maptype, ctx.zoom, t1, t2);
      if ctx.maptype.Satellite? {
        var n := Pow2(ctx.zoom);
        QuadKey.TileCodeInjective(ctx.zoom, t1.col, t1.row, t2.col, t2.row);
        QuadKey.DivModUnique(t1.col, n, 0, t1.col);
        QuadKey.DivModUnique(t2.col, n, 0, t2.col);
      }
    }
  }

  /** A cell of the matrix between two in-range corners is inside the world. */
  lemma TileAtInWorld(zoom: nat, mt: MapType, a: TileIndex, b: TileIndex, i: int, j: int)
    requires 0 <= a.col <= b.col < Pow2(zoom)
    requires 0 <= a.row < Pow2(zoom) && 0 <= b.row < Pow2(zoom)
    requires mt.Satellite? ==> a.row <= b.row
    requires !mt.Satellite? ==> a.row >= b.row
    requires 0 <= i < Span(a.col, b.col) && 0 <= j < Span(a.row, b.row)
    ensures InWorld(zoom, mt, TileAt(zoom, mt, a, i, j))
  {
    var t := TileAt(zoom, mt, a, i, j);
    assert t.col == a.col + i && t.row == MatrixRow(mt, a, j);
    assert 0 <= t.col < Pow2(zoom) && 0 <= t.row < Pow2(zoom);
    TileAtCode(zoom, mt, a, i, j);
  }

  /** Every tile of the matrix of a box inside the world is inside the world. */
  lemma MatrixInWorld(zoom: nat, mt: MapType, a: TileIndex, b: TileIndex)
    requires 0 <= a.col <= b.col < Pow2(zoom)
    requires 0 <= a.row < Pow2(zoom) && 0 <= b.row < Pow2(zoom)
    requires mt.Satellite? ==> a.row <= b.row
    requires !mt.Satellite? ==> a.row >= b.row
    ensures AllInWorld(zoom, mt, Flatten(TileMatrix(zoom, mt, a, b)))
  {
    var m := TileMatrix(zoom, mt, a, b);
    var f := Flatten(m);
    forall p | 0 <= p < |f|
      ensures InWorld(zoom, mt, f[p])
    {
      FlattenMember(m, p);
      var i, j :| 0 <= i < |m| && 0 <= j < |m[i]| && f[p] == m[i][j];
      TileAtInWorld(zoom, mt, a, b, i, j);
    }
  }

  /** Within the matrix of a box inside the world, no two tiles share an identifier. */
  lemma MatrixIdsDistinct(ctx: Context, a: TileIndex, b: TileIndex)
    requires 0 <= a.col <= b.col < Pow2(ctx.zoom)
    requires 0 <= a.row < Pow2(ctx.zoom) && 0 <= b.row < Pow2(ctx.zoom)
    requires ctx.maptype.Satellite? ==> a.row <= b.row
    requires !ctx.maptype.Satellite? ==> a.row >= b.row
    ensures DistinctIds(ctx, Flatten(TileMatrix(ctx.zoom, ctx.maptype, a, b)))
  {
    var m := TileMatrix(ctx.zoom, ctx.maptype, a, b);
    TileMatrixCells(ctx.zoom, ctx.maptype, a, b);
    FlattenDistinct(m, a.col, |m|);
    assert m[..|m|] == m;
    MatrixInWorld(ctx.zoom, ctx.maptype, a, b);
    var f := Flatten(m);
    forall p, q | 0 <= p < q < |f|
      ensures Identifier(ctx, f[p]) != Identifier(ctx, f[q])
    {
      InWorldIdsDistinct(ctx, f[p], f[q]);
    }
  }

  /** The plan for tiles with distinct identifiers and a known map type: no cached tile is
      queued, every other tile is queued with its URL and identifier, no identifier is
      queued twice, and every queued job is the job of one of the tiles. */
  lemma PlanExactlyOnce(ctx: Context, ts: seq<Tile>)
    requires !ctx.maptype.Unknown? && DistinctIds(ctx, ts)
    ensures var js := JobsOf(ctx, ts);
      && (forall k :: 0 <= k < |js| ==> js[k].identifier !in ctx.cached)
      && (forall p :: 0 <= p < |ts| && Identifier(ctx, ts[p]) !in ctx.cached ==>
            Job(TileUrl(ctx.prefixes, ctx.maptype, ctx.zoom, ts[p]).value, Identifier(ctx, ts[p])) in js)
      && (forall k1, k2 :: 0 <= k1 < k2 < |js| ==> js[k1].identifier != js[k2].identifier)
      && (forall k :: 0 <= k < |js| ==> exists p :: 0 <= p < |ts| && PlanTile(ctx, ts[p]) == Enqueue(js[k]))
  {
    JobsSound(ctx, ts);
    JobsComplete(ctx, ts);
    forall p | 0 <= p < |ts|
      ensures Identifier(ctx, ts[p]) !in ctx.cached ==>
        PlanTile(ctx, ts[p]) == Enqueue(Job(TileUrl(ctx.prefixes, ctx.maptype, ctx.zoom, ts[p]).value, Identifier(ctx, ts[p])))
    {
      PlanTileCases(ctx, ts[p]);
    }
    JobsOnce(ctx, ts);
  }

  /** For a known map type, every uncached cell of a matrix is queued with its URL and
      identifier by the column-by-column visit. */
  lemma CellsQueued(ctx: Context, m: seq<seq<Tile>>)
    requires !ctx.maptype.Unknown?
    ensures forall i, j :: 0 <= i < |m| && 0 <= j < |m[i]| && Identifier(ctx, m[i][j]) !in ctx.cached ==>
      Job(TileUrl(ctx.prefixes, ctx.maptype, ctx.zoom, m[i][j]).value, Identifier(ctx, m[i][j])) in JobsOf(ctx, Flatten(m))
  {
    var f := Flatten(m);
    JobsComplete(ctx, f);
    forall i, j | 0 <= i < |m| && 0 <= j < |m[i]| && Identifier(ctx, m[i][j]) !in ctx.cached
      ensures Job(TileUrl(ctx.prefixes, ctx.maptype, ctx.zoom, m[i][j]).value, Identifier(ctx, m[i][j])) in JobsOf(ctx, f)
    {
      FlattenComplete(m, i, j);
      var p :| 0 <= p < |f| && f[p] == m[i][j];
      PlanTileCases(ctx, f[p]);
    }
  }

  /** The download plan for a box inside the world with a known map type: the tiles of its
      matrix have distinct identifiers, so the plan queues each uncached tile exactly once
      and nothing but the planned jobs of its tiles. */
  lemma DownloadPlanExactlyOnce(ctx: Context, lng0: real, y0: real, lng1: real, y1: real)
    requires -180.0 <= lng0 <= lng1 <= 180.0 && -90.0 <= y0 <= y1 <= 90.0
    requires !ctx.maptype.Unknown?
    ensures var a, b := GetTile(ctx.zoom, ctx.maptype, lng0, y0), GetTile(ctx.zoom, ctx.maptype, lng1, y1);
      var f := Flatten(TileMatrix(ctx.zoom, ctx.maptype, a, b));
      var js := JobsOf(ctx, f);
      && (forall k :: 0 <= k < |js| ==> js[k].identifier !in ctx.cached)
      && (forall p :: 0 <= p < |f| && Identifier(ctx, f[p]) !in ctx.cached ==>
            Job(TileUrl(ctx.prefixes, ctx.maptype, ctx.zoom, f[p]).value, Identifier(ctx, f[p])) in js)
      && (forall k1, k2 :: 0 <= k1 < k2 < |js| ==> js[k1].identifier != js[k2].identifier)
      && (forall k :: 0 <= k < |js| ==> exists p :: 0 <= p < |f| && PlanTile(ctx, f[p]) == Enqueue(js[k]))
  {
    var a, b := GetTile(ctx.zoom, ctx.maptype, lng0, y0), GetTile(ctx.zoom, ctx.maptype, lng1, y1);
    CornersOrdered(ctx.zoom, ctx.maptype, lng0, y0, lng1, y1);
    MatrixIdsDistinct(ctx, a, b);
    PlanExactlyOnce(ctx, Flatten(TileMatrix(ctx.zoom, ctx.maptype, a, b)));
  }

  /** The download plan for a request with a known map type queues every uncached cell of
      the request's matrix, by its URL and identifier. */
  lemma DownloadPlanCoversMatrix(ctx: Context, lng0: real, y0: real, lng1: real, y1: real)
    requires !ctx.maptype.Unknown?
    ensures var a, b := GetTile(ctx.zoom, ctx.maptype, lng0, y0), GetTile(ctx.zoom, ctx.maptype, lng1, y1);
      var m := TileMatrix(ctx.zoom, ctx.maptype, a, b);
      forall i, j :: 0 <= i < |m| && 0 <= j < |m[i]| && Identifier(ctx, m[i][j]) !in ctx.cached ==>
        Job(TileUrl(ctx.prefixes, ctx.maptype, ctx.zoom, m[i][j]).value, Identifier(ctx, m[i][j])) in JobsOf(ctx, Flatten(m))
  {
    var a, b := GetTile(ctx.zoom, ctx.maptype, lng0, y0), GetTile(ctx.zoom, ctx.maptype, lng1, y1);
    CellsQueued(ctx, TileMatrix(ctx.zoom, ctx.maptype, a, b));
  }
}
