/**
 * Request dispatch of the project server: `serve` classifies the path of a
 * request into exactly one handler, and `serveTile` picks the vector or the
 * raster path of a tile from the extension of its last path component.
 */
module Router {
  import opened Wrappers
  import opened JsBuiltins

  /** The second path segment that marks a tile request. */
  const TilePrefix := "tile"

  /** The parsed request URI: its path and its (opaque) query. */
  datatype Uri = Uri(pathname: string, query: string)

  /** The handler a request is given to, with the arguments it is given. */
  datatype Route =
    | Redirect
    | MainPage
    | Options
    | Poll
    | Export(query: string)
    | Reload
    | ProjectRoute(path: string)
    | Tile(z: string, x: string, last: string)
    | NotFound(path: string)

  /** The paths compared literally before anything else is looked at. */
  predicate IsFixedPath(path: string) {
    path == "" || path == "/" || path == "/options/" || path == "/poll/" || path == "/export/" || path == "/reload/"
  }

  /** The segments of a path that `serve` treats as a tile request. */
  predicate IsTileSegments(els: seq<string>) {
    |els| > 1 && els[1] == TilePrefix && |els| == 5
  }

  /**
   * `serve`: the chain of tests in source order. `hasProjectRoute` is the
   * parent router's lookup, which this model leaves abstract.
   */
  function Serve(uri: Uri, hasProjectRoute: string -> bool): (r: Route)
    ensures r.Redirect? <==> uri.pathname == ""
    ensures r.MainPage? <==> uri.pathname == "/"
    ensures r.Options? <==> uri.pathname == "/options/"
    ensures r.Poll? <==> uri.pathname == "/poll/"
    ensures r.Export? <==> uri.pathname == "/export/"
    ensures r.Export? ==> r.query == uri.query
    ensures r.Reload? <==> uri.pathname == "/reload/"
    ensures r.ProjectRoute? <==> !IsFixedPath(uri.pathname) && hasProjectRoute(uri.pathname)
    ensures r.Tile? <==>
      !IsFixedPath(uri.pathname) && !hasProjectRoute(uri.pathname) && IsTileSegments(Split(uri.pathname, '/'))
    ensures r.Tile? ==> var els := Split(uri.pathname, '/');
      r.z == els[2] && r.x == els[3] && r.last == els[4]
    ensures r.NotFound? <==>
      !IsFixedPath(uri.pathname) && !hasProjectRoute(uri.pathname) && !IsTileSegments(Split(uri.pathname, '/'))
    ensures r.ProjectRoute? || r.NotFound? ==> r.path == uri.pathname
  {
    var urlpath := uri.pathname;
    var els := Split(urlpath, '/');
    if urlpath == "" then Redirect
    else if urlpath == "/" then MainPage
    else if urlpath == "/options/" then Options
    else if urlpath == "/poll/" then Poll
    else if urlpath == "/export/" then Export(uri.query)
    else if urlpath == "/reload/" then Reload
    else if hasProjectRoute(urlpath) then ProjectRoute(urlpath)
    else if |els| > 1 && els[1] == TilePrefix && |els| == 5 then Tile(els[2], els[3], els[4])
    else NotFound(urlpath)
  }

  /** The path `first/tile/z/x/last` built from its segments. */
  function TilePath(first: string, z: string, x: string, last: string): string {
    first + ("/" + (TilePrefix + ("/" + (z + ("/" + (x + ("/" + last)))))))
  }

  /** A tile path is never one of the fixed paths. */
  lemma TilePathNotFixed(first: string, z: string, x: string, last: string)
    ensures !IsFixedPath(TilePath(first, z, x, last))
  {
    var path := TilePath(first, z, x, last);
    var i := |first|;
    assert path[i + 1] == 't' && path[i + 2] == 'i';
    assert |path| == |first| + |z| + |x| + |last| + 8;
  }

  /**
   * Every path of the form `first/tile/z/x/last` with slash-free segments is
   * a tile request for (z, x, last), unless the parent claims it as a
   * project route.
   */
  lemma TileRouteOfShape(first: string, z: string, x: string, last: string, query: string, hasProjectRoute: string -> bool)
    requires '/' !in first && '/' !in z && '/' !in x && '/' !in last
    ensures var path := TilePath(first, z, x, last);
      Serve(Uri(path, query), hasProjectRoute) ==
        if hasProjectRoute(path) then ProjectRoute(path) else Tile(z, x, last)
  {
    var pieces := [first, TilePrefix, z, x, last];
    var path := TilePath(first, z, x, last);
    JoinTileSegments(pieces);
    SplitJoin(pieces, '/');
    TilePathNotFixed(first, z, x, last);
  }

  /** Joining the five segments of a tile path with `/` gives the tile path. */
  lemma JoinTileSegments(els: seq<string>)
    requires |els| == 5 && els[1] == TilePrefix
    ensures Join(els, '/') == TilePath(els[0], els[2], els[3], els[4])
  {
    var e1, e2, e3 := els[1..], els[2..], els[3..];
    assert e1[1..] == e2 && e2[1..] == e3 && e3[1..] == [els[4]];
    assert Join(e3, '/') == els[3] + ("/" + els[4]);
    assert Join(e2, '/') == els[2] + ("/" + Join(e3, '/'));
    assert Join(e1, '/') == els[1] + ("/" + Join(e2, '/'));
  }

  /** Five segments with `tile` second are exactly the path `first/tile/z/x/last`. */
  lemma TileSegmentsShape(path: string)
    requires IsTileSegments(Split(path, '/'))
    ensures var els := Split(path, '/');
      path == TilePath(els[0], els[2], els[3], els[4])
  {
    var els := Split(path, '/');
    JoinTileSegments(els);
  }

  /**
   * Conversely, a tile request for (z, x, last) only comes from a path of
   * that shape, with slash-free segments; its first segment is whatever
   * precedes the first `/`.
   */
  lemma TileRouteShape(uri: Uri, hasProjectRoute: string -> bool)
    requires Serve(uri, hasProjectRoute).Tile?
    ensures var r := Serve(uri, hasProjectRoute);
      uri.pathname == TilePath(Split(uri.pathname, '/')[0], r.z, r.x, r.last) &&
      '/' !in r.z && '/' !in r.x && '/' !in r.last
  {
    TileSegmentsShape(uri.pathname);
  }

  /** The kind of rendering a tile request is handed to, with z, x and y. */
  datatype TileJob =
    | VectorTile(z: string, x: string, y: string)
    | RasterTile(z: string, x: string, y: string)

  /** `y.split('.')[1]`, or `None` (JavaScript `undefined`) when it does not exist. */
  function Extension(y: string): Option<string> {
    var parts := Split(y, '.');
    if |parts| > 1 then Some(parts[1]) else None
  }

  /**
   * The extension is missing exactly when `y` has no dot, and otherwise it is
   * the text from just after the first dot up to the next dot or the end.
   */
  lemma ExtensionSpec(y: string)
    ensures Extension(y).None? <==> '.' !in y
    ensures Extension(y).Some? ==> '.' !in Extension(y).value
    ensures Extension(y).Some? ==>
              var e := Extension(y).value;
              exists i :: 0 <= i < |y| && y[i] == '.' && '.' !in y[..i] &&
                i + 1 + |e| <= |y| && y[i + 1..i + 1 + |e|] == e &&
                (i + 1 + |e| == |y| || y[i + 1 + |e|] == '.')
  {
    var parts := Split(y, '.');
    if |parts| > 1 {
      var e, rest := parts[1], Join(parts[1..], '.');
      assert parts[1..][0] == e;
      assert y == parts[0] + (['.'] + rest);
      var i := |parts[0]|;
      assert y[..i] == parts[0] && y[i] == '.' && y[i + 1..] == rest;
      assert rest[..|e|] == e && (|rest| == |e| || rest[|e|] == '.') by {
        if |parts| > 2 {
          assert rest == e + (['.'] + Join(parts[2..], '.'));
        }
      }
      assert y[i + 1..i + 1 + |e|] == rest[..|e|];
      assert i + 1 + |e| < |y| ==> y[i + 1 + |e|] == rest[|e|];
    }
  }

  /** `serveTile`: y is the piece before the first `.`, and the extension selects the vector path exactly when it is `json`. */
  function ServeTile(z: string, x: string, y: string): (r: TileJob)
    ensures r.z == z && r.x == x
    ensures r.y == Split(y, '.')[0] && '.' !in r.y
    ensures r.VectorTile? <==> Extension(y) == Some("json")
  {
    var parts := Split(y, '.');
    var ext := if |parts| > 1 then Some(parts[1]) else None;
    if ext == Some("json") then VectorTile(z, x, parts[0]) else RasterTile(z, x, parts[0])
  }

  /** y is the longest dot-free prefix of the last component. */
  lemma ServeTileY(z: string, x: string, y: string)
    ensures var r := ServeTile(z, x, y);
      '.' !in r.y && (y == r.y || (|y| > |r.y| && y[..|r.y|] == r.y && y[|r.y|] == '.'))
  {
    var parts := Split(y, '.');
    if |parts| > 1 {
      assert Join(parts, '.') == parts[0] + (['.'] + Join(parts[1..], '.'));
      assert y[..|parts[0]|] == parts[0];
    }
  }

  /**
   * For a last component `y.ext` followed by nothing or by a further
   * `.`-suffix, the vector path is taken exactly when `ext` is `json`.
   */
  lemma ServeTileByExtension(z: string, x: string, y: string, ext: string, tail: string)
    requires '.' !in y && '.' !in ext
    requires tail == "" || tail[0] == '.'
    ensures ServeTile(z, x, y + ("." + (ext + tail))) ==
      if ext == "json" then VectorTile(z, x, y) else RasterTile(z, x, y)
  {
    SplitAt(y, '.', ext + tail);
    if tail == "" {
      assert ext + tail == ext;
      SplitNone(ext, '.');
    } else {
      assert ext + tail == ext + (['.'] + tail[1..]);
      SplitAt(ext, '.', tail[1..]);
    }
  }

  /** A last component without a dot is rendered as raster with y unchanged. */
  lemma ServeTileNoDot(z: string, x: string, y: string)
    requires '.' !in y
    ensures ServeTile(z, x, y) == RasterTile(z, x, y)
  {
    SplitNone(y, '.');
  }

  /** The worked cases: `7.json` is vector, `7.png` and `7` are raster, y is `7`. */
  lemma ServeTileExamples(z: string, x: string)
    ensures ServeTile(z, x, "7.json") == VectorTile(z, x, "7")
    ensures ServeTile(z, x, "7.png") == RasterTile(z, x, "7")
    ensures ServeTile(z, x, "7") == RasterTile(z, x, "7")
  {
    ServeTileByExtension(z, x, "7", "json", "");
    assert "7" + ("." + ("json" + "")) == "7.json";
    ServeTileByExtension(z, x, "7", "png", "");
    assert "7" + ("." + ("png" + "")) == "7.png";
    ServeTileNoDot(z, x, "7");
  }

  /** Only the piece after the first dot counts: `7.tar.json` is raster, with y `7`. */
  lemma ServeTileFirstDotExample(z: string, x: string)
    ensures ServeTile(z, x, "7.tar.json") == RasterTile(z, x, "7")
  {
    ServeTileByExtension(z, x, "7", "tar", ".json");
    assert "7" + ("." + ("tar" + ".json")) == "7.tar.json";
  }

  /** `/tile/5/3/7.json` reaches the vector renderer for z 5, x 3, y 7 unless it is a project route. */
  lemma VectorTileRequest(hasProjectRoute: string -> bool)
    requires !hasProjectRoute("/tile/5/3/7.json")
    ensures Serve(Uri("/tile/5/3/7.json", ""), hasProjectRoute) == Tile("5", "3", "7.json")
    ensures ServeTile("5", "3", "7.json") == VectorTile("5", "3", "7")
  {
    assert TilePath("", "5", "3", "7.json") == "/tile/5/3/7.json";
    TileRouteOfShape("", "5", "3", "7.json", "", hasProjectRoute);
    ServeTileExamples("5", "3");
  }
}
