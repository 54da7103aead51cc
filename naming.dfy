/** Tile identifiers and tile URLs: plain string building over `str()` of integers. */
module Naming {
  import opened Basics
  import opened Decimal
  import opened Projection
  import opened TileGrid

  // ---- Searching and splitting strings ----

  /** The character c does not occur in s. */
  predicate Free(s: string, c: char) {
    forall k :: 0 <= k < |s| ==> s[k] != c
  }

  /** Two strings without c concatenate to one without c. */
  lemma FreeAppend(a: string, b: string, c: char)
    requires Free(a, c) && Free(b, c)
    ensures Free(a + b, c)
  {
    forall k | 0 <= k < |a + b|
      ensures (a + b)[k] != c
    {
      if k >= |a| {
        assert (a + b)[k] == b[k - |a|];
      }
    }
  }

  /** s[k..k + |pat|] is pat. */
  predicate OccursAt(s: string, pat: string, k: int) {
    0 <= k && k + |pat| <= |s| && s[k..k + |pat|] == pat
  }

  /** The first index at or after `from` where pat occurs in s (`s.find(pat, from)`). */
  function IndexOf(s: string, pat: string, from: nat): (r: Option<nat>)
    decreases |s| - from
    ensures r.Some? ==> from <= r.value && OccursAt(s, pat, r.value)
    ensures r.Some? ==> forall k :: from <= k < r.value ==> !OccursAt(s, pat, k)
    ensures r.None? ==> forall k :: from <= k ==> !OccursAt(s, pat, k)
  {
    if from + |pat| > |s| then None
    else if s[from..from + |pat|] == pat then Some(from)
    else IndexOf(s, pat, from + 1)
  }

  /** `s.split(sep)[0]`: everything before the first sep. */
  function SplitHead(s: string, sep: char): (h: string)
    ensures |h| <= |s| && h == s[..|h|]
    ensures forall k :: 0 <= k < |h| ==> h[k] != sep
    ensures |h| < |s| ==> s[|h|] == sep
  {
    if s == [] || s[0] == sep then [] else [s[0]] + SplitHead(s[1..], sep)
  }

  // ---- makeDummyUrl ----

  const GoogleDomain := ".google"

  /** makeDummyUrl: the character just before the first ".google" (the server number) becomes
      "%s"; what follows is cut at the next ".google". None when ".google" does not occur,
      where the source fails with an index error. */
  function MakeDummyUrl(url: string): Option<string> {
    match IndexOf(url, GoogleDomain, 0)
    case None => None
    case Some(i) =>
      var head, rest := url[..i], url[i + |GoogleDomain|..];
      var tail := match IndexOf(rest, GoogleDomain, 0)
        case None => rest
        case Some(j) => rest[..j];
      Some((if head == [] then [] else head[..|head| - 1]) + "%s" + GoogleDomain + tail)
  }

  /** A host whose server digit d is directly followed by the first ".google": the digit and
      only the digit becomes "%s". */
  lemma MakeDummyUrlServerSlot(host: string, d: char, tail: string)
    requires Free(host, '.')
    requires d != '.'
    requires IndexOf(tail, GoogleDomain, 0).None?
    ensures MakeDummyUrl(host + [d] + GoogleDomain + tail) == Some(host + "%s" + GoogleDomain + tail)
  {
    var url := host + [d] + GoogleDomain + tail;
    var i := |host| + 1;
    assert OccursAt(url, GoogleDomain, i) by {
      assert url[i..i + |GoogleDomain|] == GoogleDomain;
    }
    forall k | 0 <= k < i
      ensures !OccursAt(url, GoogleDomain, k)
    {
      assert url[k] != '.';
    }
    assert IndexOf(url, GoogleDomain, 0) == Some(i);
    assert url[..i] == host + [d];
    assert url[i + |GoogleDomain|..] == tail;
  }

  // ---- The mode prefixes ----

  /** What each per-type URL builder starts with. */
  datatype ModePrefixes = ModePrefixes(standard: string, satellite: string, terrain: string, sky: string)

  /** The constructor's prefix for the map, satellite and terrain types: makeDummyUrl of the
      sample URL cut at its first '&'. */
  function ModePrefix(sample: string): Option<string> {
    MakeDummyUrl(SplitHead(sample, '&'))
  }

  /** The head before the first separator. */
  lemma {:induction false} SplitHeadAt(a: string, sep: char, b: string)
    requires Free(a, sep)
    ensures SplitHead(a + [sep] + b, sep) == a
  {
    if a != [] {
      assert (a + [sep] + b)[1..] == a[1..] + [sep] + b;
      SplitHeadAt(a[1..], sep, b);
    }
  }

  /** A sample URL "<host><digit>.google<path>&<query>", with no '.' in the host, no '&' in
      the path and no further ".google": the prefix is "<host>%s.google<path>". */
  lemma ModePrefixOfSample(host: string, d: char, path: string, query: string)
    requires Free(host, '.') && d != '.' && d != '&' && Free(host, '&')
    requires Free(path, '&') && IndexOf(path, GoogleDomain, 0).None?
    ensures ModePrefix(host + [d] + GoogleDomain + path + ['&'] + query) == Some(host + "%s" + GoogleDomain + path)
  {
    var head := host + [d] + GoogleDomain + path;
    assert Free(GoogleDomain, '&');
    FreeAppend(host, [d], '&');
    FreeAppend(host + [d], GoogleDomain, '&');
    FreeAppend(host + [d] + GoogleDomain, path, '&');
    SplitHeadAt(head, '&', query);
    MakeDummyUrlServerSlot(host, d, path);
  }

  /** The program's sample URLs for the map, satellite and terrain servers, written out in
      the parts the constructor cuts them into: the host up to the server digit, the digit,
      the domain, the path, and the query after the first '&'. */
  const MapSampleUrl := "http://mt" + "0" + GoogleDomain + ".com/vt/lyrs=m@118" + "&" + "hl=en&src=api&x=0&y=0&z=0&s="
  const SatSampleUrl := "http://khm" + "0" + GoogleDomain + ".com/kh/v=54" + "&" +
    "cookie=fzwq1C7TB0nUYgDs9ekB-1G3k3HolraYN4ITsQ&x=0&y=0&z=0&s="
  const PhySampleUrl := "http://mt" + "0" + GoogleDomain + ".com/vt/v=app.118" + "&" + "hl=en&src=api&x=0&y=0&z=0&s="

  /** A string without the letter 'g' holds no ".google". */
  lemma NoGoogle(s: string)
    requires Free(s, 'g')
    ensures IndexOf(s, GoogleDomain, 0).None?
  {
    forall k | 0 <= k && k + |GoogleDomain| <= |s|
      ensures !OccursAt(s, GoogleDomain, k)
    {
      assert s[k..k + |GoogleDomain|][1] == s[k + 1] != 'g';
    }
  }

  /** The map-mode prefix the constructor derives from the map sample URL:
      "http://mt%s.google.com/vt/lyrs=m@118". */
  lemma MapModePrefix()
    ensures ModePrefix(MapSampleUrl) == Some("http://mt" + "%s" + GoogleDomain + ".com/vt/lyrs=m@118")
  {
    var host, path, query := "http://mt", ".com/vt/lyrs=m@118", "hl=en&src=api&x=0&y=0&z=0&s=";
    assert MapSampleUrl == host + ['0'] + GoogleDomain + path + ['&'] + query;
    assert Free(host, '.') && Free(host, '&') && Free(path, '&') && Free(path, 'g');
    NoGoogle(path);
    ModePrefixOfSample(host, '0', path, query);
  }

  /** The satellite-mode prefix the constructor derives from the satellite sample URL:
      "http://khm%s.google.com/kh/v=54". */
  lemma SatModePrefix()
    ensures ModePrefix(SatSampleUrl) == Some("http://khm" + "%s" + GoogleDomain + ".com/kh/v=54")
  {
    var host, path := "http://khm", ".com/kh/v=54";
    var query := "cookie=fzwq1C7TB0nUYgDs9ekB-1G3k3HolraYN4ITsQ&x=0&y=0&z=0&s=";
    assert SatSampleUrl == host + ['0'] + GoogleDomain + path + ['&'] + query;
    assert Free(host, '.') && Free(host, '&') && Free(path, '&') && Free(path, 'g');
    NoGoogle(path);
    ModePrefixOfSample(host, '0', path, query);
  }

  /** The terrain-mode prefix the constructor derives from the terrain sample URL:
      "http://mt%s.google.com/vt/v=app.118". */
  lemma PhyModePrefix()
    ensures ModePrefix(PhySampleUrl) == Some("http://mt" + "%s" + GoogleDomain + ".com/vt/v=app.118")
  {
    var host, path, query := "http://mt", ".com/vt/v=app.118", "hl=en&src=api&x=0&y=0&z=0&s=";
    assert PhySampleUrl == host + ['0'] + GoogleDomain + path + ['&'] + query;
    assert Free(host, '.') && Free(host, '&') && Free(path, '&') && Free(path, 'g');
    NoGoogle(path);
    ModePrefixOfSample(host, '0', path, query);
  }

  // ---- Identifiers and URLs ----

  /** `htmlzoom`: the non-satellite servers count zoom levels down from 17. */
  function HtmlZoom(zoom: int): int {
    17 - zoom
  }

  /** makeIdentifier: "<type>_<zoom>_" followed by the quad-key for satellite tiles and by
      "<col>_<row>" for the others. */
  function MakeIdentifier(mt: MapType, zoom: int, t: Tile): string {
    mt.Name() + "_" + IntToString(zoom) + "_" +
    (if mt.Satellite? then t.code else IntToString(t.col) + "_" + IntToString(t.row))
  }

  function GenMapUrl(p: ModePrefixes, zoom: int, t: Tile): string {
    p.standard + "&x=" + IntToString(t.col) + "&y=" + IntToString(t.row) + "&zoom=" + IntToString(HtmlZoom(zoom))
  }

  function GenSatUrl(p: ModePrefixes, t: Tile): string {
    p.satellite + "&t=" + t.code
  }

  function GenPhyUrl(p: ModePrefixes, zoom: int, t: Tile): string {
    p.terrain + "&x=" + IntToString(t.col) + "&y=" + IntToString(t.row) + "&zoom=" + IntToString(HtmlZoom(zoom))
  }

  function GenSkyUrl(p: ModePrefixes, zoom: int, t: Tile): string {
    p.sky + IntToString(t.col) + "_" + IntToString(t.row) + "_" + IntToString(zoom) + ".jpg"
  }

  /** The download loop's dispatch on the map type; None for a type it does not know. */
  function TileUrl(p: ModePrefixes, mt: MapType, zoom: int, t: Tile): Option<string> {
    match mt
    case Standard => Some(GenMapUrl(p, zoom, t))
    case Satellite => Some(GenSatUrl(p, t))
    case Terrain => Some(GenPhyUrl(p, zoom, t))
    case Sky => Some(GenSkyUrl(p, zoom, t))
    case Unknown(_) => None
  }

  /** Every known type has a URL and that URL is never empty; an unknown type has none. */
  lemma TileUrlDefined(p: ModePrefixes, mt: MapType, zoom: int, t: Tile)
    ensures TileUrl(p, mt, zoom, t).Some? <==> !mt.Unknown?
    ensures TileUrl(p, mt, zoom, t).Some? ==> |TileUrl(p, mt, zoom, t).value| >= 1
  {
  }

  /** `str()` of an integer holds only digits and a leading minus sign. */
  lemma IntToStringFree(i: int, c: char)
    requires c != '-' && !IsDigit(c)
    ensures Free(IntToString(i), c)
  {
    var s := IntToString(i);
    forall k | 0 <= k < |s|
      ensures s[k] != c
    {
      if i < 0 && k >= 1 {
        assert s[k] == s[1..][k - 1];
      }
    }
  }

  /** Removing a common prefix. */
  lemma DropPrefix(pre: string, s: string, t: string)
    requires pre + s == pre + t
    ensures s == t
  {
    assert s == (pre + s)[|pre|..];
    assert t == (pre + t)[|pre|..];
  }

  /** Index of the first c in u, or |u| when there is none. */
  function CharIndex(u: string, c: char): (k: nat)
    ensures k <= |u|
  {
    if u == [] || u[0] == c then 0 else 1 + CharIndex(u[1..], c)
  }

  /** In s + rest, with c absent from s and rest starting with c, the first c is at |s|. */
  lemma {:induction false} CharIndexAfterFree(s: string, rest: string, c: char)
    requires Free(s, c) && |rest| >= 1 && rest[0] == c
    ensures CharIndex(s + rest, c) == |s|
  {
    if s != [] {
      assert (s + rest)[1..] == s[1..] + rest;
      CharIndexAfterFree(s[1..], rest, c);
    }
  }

  /** A separator whose first character occurs in neither head splits both strings at the
      same place. */
  lemma SplitAtSeparator(s1: string, s2: string, t1: string, t2: string, sep: string)
    requires |sep| >= 1 && Free(s1, sep[0]) && Free(t1, sep[0])
    requires s1 + sep + s2 == t1 + sep + t2
    ensures s1 == t1 && s2 == t2
  {
    var u := s1 + sep + s2;
    assert u == s1 + (sep + s2) && t1 + sep + t2 == t1 + (sep + t2);
    CharIndexAfterFree(s1, sep + s2, sep[0]);
    CharIndexAfterFree(t1, sep + t2, sep[0]);
    assert s1 == u[..|s1|] == t1;
    assert s2 == u[|s1| + |sep|..] == t2;
  }

  /** "<col>_<row>" determines col and row. */
  lemma PairInjective(sep: string, c1: int, r1: int, c2: int, r2: int)
    requires |sep| >= 1 && sep[0] != '-' && !IsDigit(sep[0])
    requires IntToString(c1) + sep + IntToString(r1) == IntToString(c2) + sep + IntToString(r2)
    ensures c1 == c2 && r1 == r2
  {
    IntToStringFree(c1, sep[0]);
    IntToStringFree(c2, sep[0]);
    SplitAtSeparator(IntToString(c1), IntToString(r1), IntToString(c2), IntToString(r2), sep);
    IntToStringInjective(c1, c2);
    IntToStringInjective(r1, r2);
  }

  /** For one map type and zoom, the identifier determines the tile: its quad-key for
      satellite tiles, its (column, row) for the others. */
  lemma IdentifierInjective(mt: MapType, zoom: int, t1: Tile, t2: Tile)
    requires MakeIdentifier(mt, zoom, t1) == MakeIdentifier(mt, zoom, t2)
    ensures mt.Satellite? ==> t1.code == t2.code
    ensures !mt.Satellite? ==> t1.col == t2.col && t1.row == t2.row
  {
    var pre := mt.Name() + "_" + IntToString(zoom) + "_";
    if mt.Satellite? {
      DropPrefix(pre, t1.code, t2.code);
    } else {
      var x1 := IntToString(t1.col) + "_" + IntToString(t1.row);
      var x2 := IntToString(t2.col) + "_" + IntToString(t2.row);
      DropPrefix(pre, x1, x2);
      PairInjective("_", t1.col, t1.row, t2.col, t2.row);
    }
  }

  /** For one map type, zoom and set of prefixes, the URL determines the tile the same way. */
  lemma UrlInjective(p: ModePrefixes, mt: MapType, zoom: int, t1: Tile, t2: Tile)
    requires TileUrl(p, mt, zoom, t1) == TileUrl(p, mt, zoom, t2)
    ensures mt.Satellite? ==> t1.code == t2.code
    ensures mt.Standard? || mt.Terrain? || mt.Sky? ==> t1.col == t2.col && t1.row == t2.row
  {
    match mt
    case Satellite =>
      DropPrefix(p.satellite + "&t=", t1.code, t2.code);
    case Standard =>
      QueryInjective(p.standard, IntToString(HtmlZoom(zoom)), t1, t2);
    case Terrain =>
      QueryInjective(p.terrain, IntToString(HtmlZoom(zoom)), t1, t2);
    case Sky =>
      SkyPathInjective(p.sky, IntToString(zoom), t1, t2);
    case Unknown(_) =>
  }

  /** Removing a common suffix. */
  lemma DropSuffix(s: string, t: string, post: string)
    requires s + post == t + post
    ensures s == t
  {
    assert s == (s + post)[..|s|];
    assert t == (t + post)[..|t|];
  }

  /** The query regrouped around its column and its row. */
  lemma QueryShape(pre: string, c: string, r: string, zs: string)
    ensures pre + "&x=" + c + "&y=" + r + "&zoom=" + zs == (pre + "&x=") + (c + "&y=" + (r + ("&zoom=" + zs)))
  {
    var p, z := pre + "&x=", "&zoom=" + zs;
    Assoc(p + c + "&y=" + r, "&zoom=", zs);
    Assoc(p + c + "&y=", r, z);
    Assoc(p + c, "&y=", r + z);
    Assoc(p, c, "&y=" + (r + z));
    Assoc(c, "&y=", r + z);
  }

  /** The sky path regrouped around its column and its row. */
  lemma SkyShape(pre: string, c: string, r: string, zs: string)
    ensures pre + c + "_" + r + "_" + zs + ".jpg" == pre + (c + "_" + (r + ("_" + zs + ".jpg")))
  {
    var z := "_" + zs + ".jpg";
    Assoc(pre + c + "_" + r + "_", zs, ".jpg");
    Assoc(pre + c + "_" + r, "_", zs);
    Assoc(pre + c + "_" + r, "_" + zs, ".jpg");
    Assoc(pre + c + "_", r, z);
    Assoc(pre + c, "_", r + z);
    Assoc(pre, c, "_" + (r + z));
    Assoc(c, "_", r + z);
  }

  /** The "&x=<col>&y=<row>&zoom=<z>" query after a fixed prefix determines (col, row). */
  lemma QueryInjective(pre: string, zs: string, t1: Tile, t2: Tile)
    requires pre + "&x=" + IntToString(t1.col) + "&y=" + IntToString(t1.row) + "&zoom=" + zs ==
             pre + "&x=" + IntToString(t2.col) + "&y=" + IntToString(t2.row) + "&zoom=" + zs
    ensures t1.col == t2.col && t1.row == t2.row
  {
    var c1, r1, c2, r2 := IntToString(t1.col), IntToString(t1.row), IntToString(t2.col), IntToString(t2.row);
    var z := "&zoom=" + zs;
    QueryShape(pre, c1, r1, zs);
    QueryShape(pre, c2, r2, zs);
    DropPrefix(pre + "&x=", c1 + "&y=" + (r1 + z), c2 + "&y=" + (r2 + z));
    IntToStringFree(t1.col, '&');
    IntToStringFree(t2.col, '&');
    SplitAtSeparator(c1, r1 + z, c2, r2 + z, "&y=");
    IntToStringInjective(t1.col, t2.col);
    DropSuffix(r1, r2, z);
    IntToStringInjective(t1.row, t2.row);
  }

  /** The "<col>_<row>_<zoom>.jpg" path after a fixed prefix determines (col, row). */
  lemma SkyPathInjective(pre: string, zs: string, t1: Tile, t2: Tile)
    requires pre + IntToString(t1.col) + "_" + IntToString(t1.row) + "_" + zs + ".jpg" ==
             pre + IntToString(t2.col) + "_" + IntToString(t2.row) + "_" + zs + ".jpg"
    ensures t1.col == t2.col && t1.row == t2.row
  {
    var c1, r1, c2, r2 := IntToString(t1.col), IntToString(t1.row), IntToString(t2.col), IntToString(t2.row);
    var z := "_" + zs + ".jpg";
    SkyShape(pre, c1, r1, zs);
    SkyShape(pre, c2, r2, zs);
    DropPrefix(pre, c1 + "_" + (r1 + z), c2 + "_" + (r2 + z));
    IntToStringFree(t1.col, '_');
    IntToStringFree(t2.col, '_');
    SplitAtSeparator(c1, r1 + z, c2, r2 + z, "_");
    IntToStringInjective(t1.col, t2.col);
    DropSuffix(r1, r2, z);
    IntToStringInjective(t1.row, t2.row);
  }
}
