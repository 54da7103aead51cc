# Stitch tile geometry in Dafny

Stitch builds one large Google map image from many 256 x 256 tiles. The caller gives a
longitude range, a latitude range, a zoom level and a map type (`map`, `satellite`,
`terrain` or `sky`). The `StitchedMap` class then does five things:

1. It picks the two corner tiles of the request.
2. It builds the matrix of tiles between them, with each satellite tile addressed by a
   quad-key.
3. It plans the downloads: one (url, identifier) job per tile not yet on disk.
4. It pastes every available tile onto a canvas of 256 nX x 256 nY pixels.
5. It crops the canvas to the requested box.

This project models that geometry: the integer, rational and string arithmetic of the steps.
It leaves out the network, threads, files and images around them.

Modules, in dependency order:

- `Basics`: `Option`, `Pow2` (`1 << k`) and `Trunc` (Python's `int()`/`long()` on a float,
  which truncates toward zero), plus small real-arithmetic facts.
- `Decimal`: Python's `str()` of an integer, and a parse that shows `str()` is injective.
- `QuadKey`: `convertToBinary` and `genSatelliteTileCode`; a decoder and the round trip.
- `Projection`: `getTile` and `getCoordsOfTile` on (longitude, Mercator-y) degrees. Floats
  are exact reals here.
- `TileGrid`: the tile record and the matrix `computeTileMatrix` builds.
- `Naming`: `makeIdentifier`, `makeDummyUrl` and the four `gen_*_URL` builders.
- `Planning`: what the `download` loop does with each tile, as functions on the matrix and
  on a set of already-downloaded identifiers.
- `Layout`: the paste origins of `stitch` and the crop box of `crop`.
- `Stitcher`: class `StitchedMap`. Its fields are the request and the state its steps build:
  `nX`, `nY`, `tiles`, `pX`, `pY`. Its methods are the loops of `computeTileMatrix`,
  `download` and `stitch`, and the steps of `generate`, each proved against the functions
  above. The clamping steps of `crop` are the method `Layout.Crop`, which `Stitch` calls.

## Model

| member | source | states |
|---|---|---|
| Basics.Pow2 | stitch.py:378 | `1 << zoom` is at least 1 |
| Basics.Trunc | stitch.py:381-382 | `long()`/`int()` of a float truncates toward zero: for r >= 0 the result is the floor of r; for r < 0 it is the ceiling, within 1 of r |
| Basics.TruncMonotone | stitch.py:381-382 | truncation never reverses the order of two reals |
| Decimal.NatToString | stitch.py:368 | the decimal text of a natural number is non-empty and all digits, with no leading zero except for 0 itself |
| Decimal.IntToString | stitch.py:368-372 | `str(i)` is non-empty: digits only for i >= 0, a '-' and then digits for i < 0 |
| Decimal.ParseNatToString | stitch.py:368 | reading the digits of n back gives n |
| Decimal.IntToStringRoundTrip | stitch.py:368-372 | reading `str(i)` back gives i, negative i included |
| Decimal.IntToStringInjective | stitch.py:372 | two integers with the same `str()` are equal |
| QuadKey.Shr | stitch.py:437 | `x >> i` on any integer, as i halvings rounding down |
| QuadKey.Bit | stitch.py:437 | `(x >> i) & 1`, which is 0 or 1 |
| QuadKey.BitChar | stitch.py:437 | `str((x >> i) & 1)`: the character '0' or '1' for bit i of x; see BitsAt |
| QuadKey.Bits | stitch.py:435-437 | the string after i rounds of convertToBinary's loop has i characters |
| QuadKey.BitsAt | stitch.py:436-437 | character k of the n-character string is bit n-1-k of x |
| QuadKey.ConvertToBinary | stitch.py:433-438 | the loop returns exactly n characters, character k being bit n-1-k of x (most significant first) |
| QuadKey.BinaryValueOfBits | stitch.py:433-438 | the n bits, read as a binary number, plus 2^n times x >> n give back x, for any integer x |
| QuadKey.BinaryValueInRange | stitch.py:433-438 | for 0 <= x < 2^n the string is x written in binary, most significant bit first |
| QuadKey.Letters | stitch.py:474-485 | one letter per bit pair |
| QuadKey.LettersAt | stitch.py:474-485 | letter k is the table letter of column bit k and row bit k |
| QuadKey.WrapColumn | stitch.py:459-462 | the column the code encodes is x mod 2^zoom, which lies in [0, 2^zoom) |
| QuadKey.TileCode | stitch.py:441-487 | genSatelliteTileCode as a function: "x" for a row outside the grid, otherwise 't' and one table letter per bit pair of the wrapped column and the row; its properties are the TileCode lemmas below |
| QuadKey.GenSatelliteTileCode | stitch.py:441-487 | the method returns "x" for a row outside the grid, and otherwise 't' followed by one table letter per bit of the wrapped column and of the row, most significant first |
| QuadKey.TileCodeShape | stitch.py:454-487 | a row below 0 or above 2^zoom - 1 gives "x"; an in-range row gives zoom + 1 characters, 't' then letters from {q, r, s, t} |
| QuadKey.TileCodeTable | stitch.py:470-485 | letter i+1 is t, q, s, r for (column bit, row bit) = (0,0), (0,1), (1,0), (1,1) |
| QuadKey.DecodeTileCodeRoundTrip | stitch.py:441-487 | decoding the code of an in-range row gives back (x mod 2^zoom, y) |
| QuadKey.TileCodeInjective | stitch.py:441-487 | two in-range rows with equal codes have the same row and the same wrapped column |
| QuadKey.TileCodeWrap | stitch.py:459-462 | the code of x equals the code of x mod 2^zoom and of x + k * 2^zoom for every k |
| QuadKey.TileCodeZoomOne | stitch.py:446-449 | at zoom 1 the four codes are tq tr over tt ts, as the comment draws them |
| QuadKey.TileCodeZoomTwoColumnZero | stitch.py:446-452 | at zoom 2, column 0 row 3 (top left) is "tqq" |
| QuadKey.TileCodeZoomTwoColumnThree | stitch.py:446-452 | at zoom 2, column 3 row 0 (bottom right) is "tss" |
| QuadKey.TileCodeZoomTwo | stitch.py:446-452 | both corners of the zoom-2 drawing |
| Projection.CoordsOfTile | stitch.py:490-507 | the footprint is 360/nTile degrees wide and 180/nTile high, with UR = LL + (width, height) |
| Projection.ParseMapType | stitch.py:342-349 | the map-type string of a request: "map", "satellite", "terrain" and "sky" are the four known types and every other string is unknown; the type's name is the string itself |
| Projection.ParseMapTypeName | stitch.py:342-349 | reading a request's map-type name back gives the same map type, so no known name is ever taken for an unknown type |
| Projection.ClampIndex | stitch.py:384-388 | an index equal to nTile becomes nTile - 1, then a negative index becomes 0; see AxisIndexInRange |
| Projection.AxisIndex | stitch.py:381-388 | the index along one axis: the coordinate scaled to nTile tiles, truncated toward zero, nTile moved to nTile - 1 and a negative index moved to 0; see AxisIndexInRange and AxisIndexContains |
| Projection.AxisEdge | stitch.py:494-502 | the lower edge of tile k along one axis, -offset + k times the tile size; see AxisIndexOfEdge |
| Projection.FlipRow | stitch.py:391-392 | the row flip nTile - 1 - row of the non-satellite types, the identity for satellite maps; see GetTileMonotone and CoordsOfTileRoundTrip |
| Projection.GetTile | stitch.py:376-395 | getTile: the column and row index of (lng, Mercator-y), the row flipped for non-satellite types; its properties are the GetTile lemmas below |
| Projection.AxisFraction | stitch.py:381-382 | a coordinate in range scales to a position in [0, nTile] |
| Projection.AxisIndexInRange | stitch.py:381-388 | after truncation and the two clamps, the index along one axis lies in [0, nTile - 1] |
| Projection.AxisIndexMonotone | stitch.py:381-388 | the index along one axis never decreases as the coordinate grows |
| Projection.AxisIndexContains | stitch.py:381-388 | the chosen tile's lower edge is at or below the coordinate and its upper edge at or above it |
| Projection.AxisIndexOfEdge | stitch.py:381-388 | the lower edge of tile k maps back to tile k |
| Projection.GetTileInRange | stitch.py:376-395 | for lng in [-180, 180] and Mercator-y in [-90, 90] both indices lie in [0, nTile - 1], the row flip included |
| Projection.GetTileMonotone | stitch.py:381-392 | the column never decreases eastward; the row never decreases northward for satellite maps and never increases northward for the other types |
| Projection.GetTileInFootprint | stitch.py:376-395 | the footprint of the tile getTile picks contains the point, on both axes |
| Projection.CoordsOfTileRoundTrip | stitch.py:490-507 | getTile of an in-range tile's lower-left corner gives that tile back, the row flip included |
| TileGrid.TileAtFields | stitch.py:290-305 | a tile built field by field, as the inner loop does it, is the matrix cell (i, j) |
| TileGrid.TileAtCode | stitch.py:296-301 | a cell's code is the quad-key of its own column and row for satellite maps, and empty otherwise |
| TileGrid.Span | stitch.py:276-277 | abs(b - a) + 1, the number of columns or rows between two corner indices; see TileMatrixCells |
| TileGrid.MatrixRow | stitch.py:296-300 | the server row of grid row j: Ay + j for satellite maps and Ay - j otherwise; see TileMatrixCells |
| TileGrid.TileAt | stitch.py:290-305 | the cell (i, j) as computeTileMatrix first builds it; see TileAtFields and TileAtCode |
| TileGrid.TileMatrix | stitch.py:276-307 | the matrix computeTileMatrix builds between corners A and B; its properties are the TileMatrix lemmas below |
| TileGrid.Flatten | stitch.py:327-328 | the tiles in the order download visits them, column by column; see FlattenDistinct, FlattenMember and FlattenComplete |
| TileGrid.CornersOrdered | stitch.py:224-225 | the corner tiles of a box with ordered corners inside the world are in range; column B is not left of column A, and row B lies north of row A in the type's row direction |
| TileGrid.TileMatrixCells | stitch.py:276-307 | nX = abs(Bx - Ax) + 1 columns of nY = abs(By - Ay) + 1 tiles; tile (i, j) has column Ax + i, row Ay + j (satellite) or Ay - j (others), and status True |
| TileGrid.TileMatrixDistinct | stitch.py:276-307 | distinct grid positions hold distinct (column, row) pairs |
| TileGrid.TileMatrixCovers | stitch.py:276-307 | for ordered corners a (column, row) is in the matrix exactly when it lies in the rectangle between the corners, both included |
| TileGrid.TileMatrixCorners | stitch.py:276-307 | the first tile is corner A and the last tile is corner B |
| TileGrid.FlattenDistinct | stitch.py:327-328 | visiting columns with distinct column numbers and distinct rows within each column never meets the same (column, row) twice |
| TileGrid.FlattenMember | stitch.py:327-328 | every tile the column-major visit meets is a cell of the matrix |
| TileGrid.FlattenComplete | stitch.py:327-328 | every cell of the matrix is met by the column-major visit |
| Naming.IndexOf | stitch.py:152 | the first occurrence of the pattern at or after `from`, or None when there is none |
| Naming.SplitHead | stitch.py:142-144 | `split(sep)[0]` is the longest prefix without sep, followed by sep or by the end |
| Naming.MakeDummyUrl | stitch.py:148-155 | makeDummyUrl: the character before the first ".google" becomes "%s" and the rest is cut at the next ".google"; None where the source fails with an index error; see MakeDummyUrlServerSlot |
| Naming.MakeDummyUrlServerSlot | stitch.py:148-155 | for a URL whose server digit is directly followed by the first ".google", exactly that digit becomes "%s" |
| Naming.SplitHeadAt | stitch.py:142-144 | the head before the first separator is the part that contains no separator |
| Naming.ModePrefix | stitch.py:142-144 | a mode prefix is makeDummyUrl of the sample URL's part before its first '&'; see ModePrefixOfSample and the three examples below |
| Naming.ModePrefixOfSample | stitch.py:142-144 | a sample URL "host d .google path & query" gives the prefix "host %s .google path" |
| Naming.MapModePrefix | stitch.py:142 | the map sample URL (stitch.py:53) gives the prefix "http://mt%s.google.com/vt/lyrs=m@118" |
| Naming.SatModePrefix | stitch.py:143 | the satellite sample URL (stitch.py:54) gives the prefix "http://khm%s.google.com/kh/v=54" |
| Naming.PhyModePrefix | stitch.py:144 | the terrain sample URL (stitch.py:55) gives the prefix "http://mt%s.google.com/vt/v=app.118" |
| Naming.HtmlZoom | stitch.py:211-212 | htmlzoom, 17 - zoom, the zoom the map and terrain servers expect; see UrlInjective |
| Naming.MakeIdentifier | stitch.py:366-373 | makeIdentifier: "<type>_<zoom>_" and then the quad-key for satellite tiles or "<col>_<row>" for the others; see IdentifierInjective |
| Naming.GenMapUrl | stitch.py:398-404 | gen_MAP_URL: the map prefix, then "&x=<col>&y=<row>&zoom=<htmlzoom>"; see UrlInjective |
| Naming.GenSatUrl | stitch.py:407-412 | gen_SAT_URL: the satellite prefix, then "&t=<code>"; see UrlInjective |
| Naming.GenPhyUrl | stitch.py:415-421 | gen_PHY_URL: the terrain prefix, then "&x=<col>&y=<row>&zoom=<htmlzoom>"; see UrlInjective |
| Naming.GenSkyUrl | stitch.py:424-430 | gen_SKY_URL: the sky prefix, then "<col>_<row>_<zoom>.jpg"; see UrlInjective |
| Naming.TileUrl | stitch.py:342-349 | download's dispatch to the four builders, None for an unknown map type; see TileUrlDefined and UrlInjective |
| Naming.TileUrlDefined | stitch.py:342-351 | each known map type has a URL builder and its URL is never empty; an unknown type has none |
| Naming.IntToStringFree | stitch.py:372 | `str()` of an integer holds no '_', '&' or other non-digit besides '-' |
| Naming.PairInjective | stitch.py:372 | "col_row" determines col and row |
| Naming.IdentifierInjective | stitch.py:366-373 | for one map type and zoom the identifier determines the satellite code, or the (column, row) for the other types |
| Naming.UrlInjective | stitch.py:398-430 | for one map type, zoom and set of prefixes the URL determines the satellite code, or the (column, row) for map, terrain and sky |
| Naming.QueryInjective | stitch.py:398-421 | "&x=col&y=row&zoom=z" after a fixed prefix determines (column, row) |
| Naming.SkyPathInjective | stitch.py:424-430 | "col_row_zoom.jpg" after a fixed prefix determines (column, row) |
| Planning.PlanTileCases | stitch.py:330-360 | for a known type a tile is enqueued exactly when its identifier is not cached, and it is never marked unavailable and never quits; an unknown type quits exactly on an uncached tile; a queued job is (url, makeIdentifier(tile)) |
| Planning.PlanTile | stitch.py:330-360 | one turn of download on one tile: use the cached file, queue (url, identifier), mark the tile unavailable on an empty URL, or quit on an unknown type; see PlanTileCases |
| Planning.JobsOf | stitch.py:327-362 | the queue after download has visited a sequence of tiles in order; see JobsSound, JobsComplete and JobsOnce |
| Planning.MarkAll | stitch.py:360 | the matrix as download leaves it, with the status of tiles on an empty URL set to False; see NothingMarked |
| Planning.EnqueuedIdentifier | stitch.py:354 | a queued job carries the tile's identifier |
| Planning.JobsSound | stitch.py:327-362 | every queued job was planned for one of the visited tiles, and no queued identifier is a cached one |
| Planning.JobsComplete | stitch.py:327-362 | every tile planned for the queue is in the queue |
| Planning.JobsOnce | stitch.py:327-362 | tiles with distinct identifiers never put the same identifier on the queue twice |
| Planning.NothingMarked | stitch.py:351-360 | every URL is non-empty, so no tile's status is set to False and the matrix is left as it was; a known map type never quits |
| Planning.UnknownQueuesNothing | stitch.py:347-349 | an unknown map type queues nothing |
| Planning.PlanTileWithUrl | stitch.py:338-360 | an uncached tile with a non-empty URL is queued with its identifier and left unchanged; with an empty URL it would be marked unavailable and not queued |
| Planning.PlanTileCached | stitch.py:334-336 | a cached tile queues nothing and is left unchanged |
| Planning.JobsOfSnoc | stitch.py:327-362 | visiting one more tile appends that tile's job to the queue |
| Planning.JobsOfPrefix | stitch.py:328-362 | within a column, each step appends the current tile's job |
| Planning.JobsOfAppend | stitch.py:327-362 | the queue of two stretches of tiles is the first stretch's queue followed by the second's |
| Planning.ColumnQuitsSnoc | stitch.py:328-349 | a column prefix quits exactly when a shorter prefix quit or its last tile quits |
| Planning.ColumnQuitsSome | stitch.py:328-349 | a column quits exactly when one of its tiles quits |
| Planning.ColumnQuitsAt | stitch.py:347-349 | a column with a quitting tile quits |
| Planning.QuitsSnoc | stitch.py:327-349 | a matrix prefix quits exactly when a shorter prefix quit or its last column quits |
| Planning.InWorldIdsDistinct | stitch.py:366-373 | two in-range tiles at different places, with their own quad-keys, have different identifiers |
| Planning.TileAtInWorld | stitch.py:288-305 | a cell of the matrix between two in-range corners is in range and carries its own quad-key |
| Planning.MatrixInWorld | stitch.py:288-307 | every tile of the matrix between two in-range corners is in range and carries its own quad-key |
| Planning.MatrixIdsDistinct | stitch.py:288-307 | within that matrix no two tiles share an identifier |
| Planning.PlanExactlyOnce | stitch.py:327-362 | for tiles with distinct identifiers and a known type, no cached tile is queued, every uncached tile is queued as (its url, its identifier), no identifier is queued twice, and every queued job is the job planned for one of the tiles |
| Planning.CellsQueued | stitch.py:327-360 | for a known map type, every uncached cell (i, j) of any matrix is queued with its URL and identifier by the column-major visit |
| Planning.DownloadPlanExactlyOnce | stitch.py:320-362 | for the matrix of any box inside the world, download queues each uncached tile of its visit exactly once, and every queued job is the job planned for one of the matrix's tiles; DownloadPlanCoversMatrix states completeness over the matrix's cells |
| Planning.DownloadPlanCoversMatrix | stitch.py:320-360 | for a request with a known map type, every uncached cell (i, j) of its matrix is queued with its URL and identifier |
| Layout.PasteInsideCanvas | stitch.py:551-568 | on the 256 nX x 256 nY canvas every tile square lies inside the canvas; row 0 touches the bottom edge and row nY - 1 the top edge |
| Layout.PastesDisjoint | stitch.py:567-568 | the squares of two distinct tiles do not overlap |
| Layout.PasteOrigin | stitch.py:567-568 | the top-left pixel (256 i, pY - 256 (j + 1)) of tile (i, j); see PasteInsideCanvas and PastesDisjoint |
| Layout.ColumnPastes | stitch.py:558-571 | the pastes of one column, bottom row first, skipping tiles whose status is False; see ColumnPastesExact |
| Layout.Pastes | stitch.py:557-571 | the pastes of the whole matrix, column by column; see PastesExact |
| Layout.ColumnPastesSound | stitch.py:558-571 | every paste of a column is the paste of one of its available tiles |
| Layout.ColumnPastesComplete | stitch.py:558-571 | every available tile of a column is pasted |
| Layout.ColumnPastesExact | stitch.py:558-571 | a column's pastes are exactly its available tiles, each at its own origin |
| Layout.PastesSound | stitch.py:557-571 | every paste is the paste of one available tile of the matrix |
| Layout.PastesComplete | stitch.py:557-571 | every available tile of the matrix is pasted |
| Layout.PastesExact | stitch.py:557-571 | stitch pastes exactly the available tiles, each at (256 i, pY - 256 (j + 1)); tiles with status False are skipped |
| Layout.AxisSpan | stitch.py:494-506 | from the lower edge of tile k to the upper edge of tile k + d is d + 1 tile sizes, a positive distance |
| Layout.GridFootprint | stitch.py:514-521 | from LL of tile (0, 0) to UR of the last tile, the rectangle crop measures the request in; see EndsFootprint and MatrixFootprint |
| Layout.FootprintSpan | stitch.py:514-521 | from LL of the first tile to UR of the last tile is nX tile widths and nY tile heights |
| Layout.MatrixEnds | stitch.py:514-518 | the last tile of the built matrix is nX - 1 columns and nY - 1 grid rows from the first |
| Layout.EndsFootprint | stitch.py:514-521 | the rectangle crop divides by is nX tiles wide and nY tiles high |
| Layout.GridFootprintPositive | stitch.py:524-527 | the widths crop divides by are positive, whatever the order of the corners |
| Layout.MatrixFootprint | stitch.py:514-521 | the rectangle runs from LL of corner tile A to UR of corner tile B |
| Layout.GridFootprintContainsBox | stitch.py:514-527 | for a box inside the world the rectangle contains the requested box |
| Layout.PixelX | stitch.py:524-531 | the pixel column of a longitude: its fraction of the rectangle's width times pX, truncated; see PixelXInRange |
| Layout.PixelY | stitch.py:525-532 | the pixel row of a Mercator-y counted from the top: one minus its fraction of the height, times pY, truncated; see PixelYInRange |
| Layout.ClampAsWritten | stitch.py:535-542 | the source's clamp of one coordinate into [0, p - 1] |
| Layout.CropAsWritten | stitch.py:529-544 | crop as written: the box [ax, by, bx, ay] with every coordinate clamped into [0, p - 1]; see CropAsWrittenBounds and CropAsWrittenFromCorrected |
| Layout.CropAsWrittenBounds | stitch.py:529-544 | as written, ax and bx lie in [0, pX - 1] and ay and by in [0, pY - 1] |
| Layout.PixelCorners | stitch.py:524-532 | the corners of the rectangle map to pixels 0 and pX across, and 0 and pY down |
| Layout.CropAsWrittenLosesEdges | stitch.py:535-544 | as written, requesting exactly the rectangle gives the box (0, 0, pX - 1, pY - 1): one pixel column and one pixel row short |
| Layout.CropAsWrittenWorld | stitch.py:535-544 | as written, longitudes -180 to 180 at zoom 0 (one 256 x 256 tile) give the box from pixel column 0 to 255, so the map is 255 pixels wide |
| Layout.CropAsWrittenEastEdge | stitch.py:526-544 | as written, a request whose eastern edge is the rectangle's eastern edge (a longitude range ending at 180) gets the right edge pX - 1 |
| Layout.ClampEdge | stitch.py:535-542 | the corrected clamp of one edge coordinate into [0, p] |
| Layout.CropBoxOf | stitch.py:529-544 | the crop box with the corrected clamps; see Crop, CropBoxOfInside and CropBoxOfFull |
| Layout.Crop | stitch.py:529-544 | the corrected crop, clamping step by step, returns the box with every edge clamped into [0, pX] x [0, pY] |
| Layout.CropBoxOfEastEdge | stitch.py:526-544 | corrected, a request whose eastern edge is the rectangle's eastern edge keeps the last pixel column: the right edge is pX |
| Layout.CropAsWrittenFromCorrected | stitch.py:535-544 | the source's box is the corrected box with each edge equal to pX or pY pulled in by one pixel; every other edge is the same in both |
| Layout.Fraction | stitch.py:524-527 | where a coordinate sits between the footprint's two edges, 0 at the lower edge and 1 at the upper; see FractionMonotone |
| Layout.Scaled | stitch.py:529-532 | `int(p * f)`: a fraction f of p pixels truncated toward zero; see the Scaled lemmas |
| Layout.FractionMonotone | stitch.py:524-527 | points v1 <= v2 inside the rectangle sit at fractions 0 <= f1 <= f2 <= 1 |
| Layout.ScaledNonNegative | stitch.py:529-532 | a non-negative fraction of p pixels, truncated, is not negative |
| Layout.ScaledOrdered | stitch.py:529-532 | a larger fraction never gives fewer pixels |
| Layout.ScaledAtMost | stitch.py:529-532 | a fraction of at most 1 gives at most p pixels |
| Layout.ScaledMonotone | stitch.py:529-532 | fractions 0 <= f1 <= f2 <= 1 of p pixels give ordered pixels in [0, p] |
| Layout.PixelXInRange | stitch.py:524-531 | a longitude inside the rectangle has a pixel column in [0, pX], never decreasing eastward |
| Layout.PixelYInRange | stitch.py:525-532 | a Mercator-y inside the rectangle has a pixel row in [0, pY], never increasing northward |
| Layout.CropBoxOfInside | stitch.py:524-544 | for a request inside the rectangle the corrected clamps never move a corner: the box is the exact pixel image of the request, ordered, and inside the canvas |
| Layout.CropBoxOfFull | stitch.py:535-544 | corrected, requesting exactly the rectangle keeps the whole canvas, (0, 0, pX, pY) |
| Stitcher.StitchedMap.CornerA | stitch.py:224 | tileA: getTile of the lower-left corner (lonVal[0], yVal[0]) |
| Stitcher.StitchedMap.CornerB | stitch.py:225 | tileB: getTile of the upper-right corner (lonVal[1], yVal[1]) |
| Stitcher.StitchedMap.constructor | stitch.py:123-145 | the request is stored as given, and no matrix and no canvas exist yet |
| Stitcher.StitchedMap.MakeTile | stitch.py:290-305 | one inner step builds tile (i, j): column Ax + i, row Ay + j with its quad-key (satellite) or row Ay - j with an empty code, status True |
| Stitcher.StitchedMap.MakeColumn | stitch.py:291-305 | the inner loop builds the nY cells of column i, in grid-row order |
| Stitcher.StitchedMap.ComputeTileMatrix | stitch.py:265-307 | sets nX, nY and tiles to the matrix between getTile's two corners; the object is then Valid |
| Stitcher.StitchedMap.VisitTile | stitch.py:330-360 | one turn appends the tile's job to the queue, or reports quit on an unknown type; it never reaches the branch that marks a tile unavailable |
| Stitcher.StitchedMap.VisitColumn | stitch.py:328-362 | over one column: quits exactly when a tile of the column quits, and otherwise appends the column's jobs in order |
| Stitcher.StitchedMap.Download | stitch.py:320-363 | succeeds exactly when no tile quits, and then returns the jobs of all tiles in column-major order |
| Stitcher.StitchedMap.PasteColumn | stitch.py:558-571 | over one column: appends one paste per available tile, bottom row first |
| Stitcher.StitchedMap.PasteAll | stitch.py:557-571 | the pastes of all columns, left to right |
| Stitcher.StitchedMap.Stitch | stitch.py:548-576 | sets the canvas to 256 nX x 256 nY, pastes exactly the available tiles, returns the corrected crop box of the request within the grid's positive-size rectangle, and names the output after tile (0, 0) |
| Stitcher.StitchedMap.Generate | stitch.py:123-182 | rejects an empty latitude range, then an empty longitude range; otherwise builds the request's matrix (nX, nY and tiles are set even when the zoom is then rejected), rejects a zoom above 19, fails exactly when the download plan quits on an unknown type, and otherwise succeeds with the plan, the pastes, the corrected crop box and the output path of that matrix; a range error leaves nX, nY and tiles as they were, and no failure sets pX or pY |

## Left out

- The download threads (`ThreadingClass`, stitch.py:66-117) and the `grabPool` queue are left out. They are concurrency and network I/O. The model's queue is the sequence of jobs in the order they are put.
- `latitudeToMercator` (stitch.py:231-262) uses logarithms and trigonometry on floats. Its result, Mercator-y in latitude-like degrees, is an input to `StitchedMap` (`yVal`), taken to be in [-90, 90] wherever a lemma needs a range.
- The zoom-from-resolution branch of `computeTileRange` (stitch.py:187-204) is left out. It uses `log10` on floats. Zoom is an input, a natural number.
- A negative zoom is outside the model. In Python `1 << zoom` fails for it in `getTile`, before generate's zoom check is reached.
- Floating point is modelled as exact real arithmetic. Rounding of `360.0 / nTile` and of the crop fractions is not modelled.
- `checkURL` (stitch.py:310-317), `os.path.exists`, `os.mkdir` and every PIL call are left out. The files already on disk are a set of identifiers passed to `Download` and `Generate`. The image calls are represented by the pastes, the crop box and the output path they would receive.
- The wx GUI (stitch.py:584-908), `print` and `sys.exit` are left out. Aborts are `Failed` outcomes of `Generate`.
- The constructor's early return on an empty latitude or longitude range (stitch.py:130-136) leaves a half-initialised object, and generate then fails on a missing attribute. The model checks the two ranges in `Generate` and fails with `InvalidLatitudeRange` or `InvalidLongitudeRange`.
- The mode prefixes are constructor parameters (`ModePrefixes`). `makeDummyUrl` and the `split('&')[0]` step are modelled and proved on URLs of the sample shape. The sky prefix's `replace('0_0_0.jpg', '')` (stitch.py:145) is not modelled.
- Stitcher.StitchedMap.Download: does not assign `tile[3] = False`. That branch needs an empty URL, and Planning.NothingMarked proves no builder returns one, so the tiles are never changed.
- TileGrid.TileMatrixCells: does not state the cells' codes. TileGrid.TileAtCode and Planning.MatrixInWorld state them.
- Stitcher.StitchedMap.Stitch: returns the corrected crop box (Layout.CropBoxOf, clamped into [0, pX] x [0, pY]) rather than the source's [0, p - 1] clamp, as "## Findings" explains. The source's box follows from it by Layout.CropAsWrittenFromCorrected.
- Stitcher.StitchedMap.Generate: its crop box is the corrected one, for the same reason as Stitch.
- QuadKey.GenSatelliteTileCode: does not model the `if (x < 0): x += nTile` after the wrap (stitch.py:461-462). Python's `%` by a positive modulus is never negative, so that branch is dead.

## Findings

| source | as written | input that shows it | evidently intended | confidence | as-written member | corrected member |
|---|---|---|---|---|---|---|
| stitch.py:535-544 | every crop coordinate is clamped into [0, p - 1], and the box then goes to PIL's crop, whose right and lower edges are exclusive | a longitude range ending at 180: bx = int(pX * 1.0) = pX is clamped to pX - 1, so the last pixel column is lost; at zoom 0 with longitudes -180 to 180 the map is 255 pixels wide instead of 256 | right and lower edges clamped into [0, p], so a range ending at 180 keeps the right edge pX | not executed; follows from the arithmetic and PIL's box convention | Layout.CropAsWrittenEastEdge | Layout.CropBoxOfEastEdge |
