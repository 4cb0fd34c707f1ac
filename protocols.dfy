/**
 * Downloadable 256 x 256 tiles (`CytomineDownloadableTile` and its protocol
 * subclasses in sldc_cytomine/tile.py): the deterministic cache file name,
 * the tile addressing of each protocol, and the cache-first fetch that turns
 * a tile into a decoded raster.
 */
module Protocols {
  import opened Common
  import opened Naming
  import opened Slides
  import Grid

  /**
   * The protocol subclasses: `CytomineIIPTile`, `CytomineZoomifyTile` and
   * `CytomineWindowTile` of sldc_cytomine/tile.py, and the older
   * `CytomineIIPTile` of sldc_cytomine/image_adapter.py, which does not check
   * the class of its slide but needs its `slice_instance`.
   */
  datatype Protocol = Iip | AdapterIip | Zoomify | WindowCrop

  /** A downloadable tile: the directory it caches into, its geometry and its protocol. */
  datatype DownloadableTile = DownloadableTile(workingPath: string, tile: TileRef, protocol: Protocol)

  /** What a protocol asks the server for (the payload of the download call). */
  datatype Request =
    | IipTileRequest(tileIndex: int, z: int)            // `/slice/tile` with `tileIndex`, `z`
    | ZoomifyTileRequest(col: int, row: int, z: int)    // `/image/tile` with `x`, `y`, `z`
    | WindowRequest(x: int, y: int, w: int, h: int)     // the image instance's window service

  /** `"{id}-{zoom}-{x}-{y}-{w}-{h}.png"`. */
  function CacheName(id: int, zoom: int, x: int, y: int, w: int, h: int): (s: string)
    ensures IntToString(id) + "-" <= s
    ensures |s| >= 4 && s[|s| - 4..] == ".png"
    ensures s[0] != '/'
  {
    Field(id, '-', Field(zoom, '-', Field(x, '-', Field(y, '-', Field(w, '-', Field(h, '.', "png"))))))
  }

  /**
   * `cache_filename`: image id, the slide's zoom level, absolute offset and
   * size. The tile's offset in its parent, its protocol and its working
   * directory play no part.
   */
  function CacheFilename(t: DownloadableTile): (s: string)
    ensures IntToString(t.tile.slide.instance.id) + "-" + IntToString(t.tile.slide.zoomLevel) + "-" <= s
    ensures |s| >= 4 && s[|s| - 4..] == ".png" && s[0] != '/'
  {
    var tile := t.tile;
    var id, zoom := IntToString(tile.slide.instance.id), IntToString(tile.slide.zoomLevel);
    var rest := Field(tile.absX, '-', Field(tile.absY, '-', Field(tile.width, '-', Field(tile.height, '.', "png"))));
    assert Field(tile.slide.zoomLevel, '-', rest) == zoom + "-" + rest;
    assert id + "-" + (zoom + "-" + rest) == (id + "-" + zoom + "-") + rest;
    CacheName(tile.slide.instance.id, tile.slide.zoomLevel, tile.absX, tile.absY, tile.width, tile.height)
  }

  /**
   * `cache_filepath`: the cache file name inside the working directory. The
   * name is relative, so the path extends the directory and ends with the name.
   */
  function CacheFilepath(t: DownloadableTile): (p: string)
    ensures t.workingPath <= p
    ensures |CacheFilename(t)| <= |p| && p[|p| - |CacheFilename(t)|..] == CacheFilename(t)
  {
    Join(t.workingPath, CacheFilename(t))
  }

  /**
   * Two tiles with the same image, zoom level, absolute offset and size share
   * their cache file name, whatever their parent offsets, protocols and
   * working directories.
   */
  lemma CacheFilenameIgnoresParent(t: DownloadableTile, dir: string, protocol: Protocol, offsetX: int, offsetY: int)
    ensures CacheFilename(t.(workingPath := dir, protocol := protocol, tile := t.tile.(offsetX := offsetX, offsetY := offsetY)))
         == CacheFilename(t)
  {
  }

  /**
   * Distinct tiles never share a cache file name: the six integers can be read
   * back from the name, negative ones included.
   */
  lemma CacheNameInjective(id: int, zoom: int, x: int, y: int, w: int, h: int,
                           id': int, zoom': int, x': int, y': int, w': int, h': int)
    requires CacheName(id, zoom, x, y, w, h) == CacheName(id', zoom', x', y', w', h')
    ensures id == id' && zoom == zoom' && x == x' && y == y' && w == w' && h == h'
  {
    var sh, sh' := Field(h, '.', "png"), Field(h', '.', "png");
    var sw, sw' := Field(w, '-', sh), Field(w', '-', sh');
    var sy, sy' := Field(y, '-', sw), Field(y', '-', sw');
    var sx, sx' := Field(x, '-', sy), Field(x', '-', sy');
    var sz, sz' := Field(zoom, '-', sx), Field(zoom', '-', sx');
    FieldSplit(id, '-', sz, id', '-', sz');
    FieldSplit(zoom, '-', sx, zoom', '-', sx');
    FieldSplit(x, '-', sy, x', '-', sy');
    FieldSplit(y, '-', sw, y', '-', sw');
    FieldSplit(w, '-', sh, w', '-', sh');
    FieldSplit(h, '.', "png", h', '.', "png");
  }

  /** Two tiles of the same working directory share a cache file only if they agree on all six fields. */
  lemma CacheFilepathInjective(t: DownloadableTile, u: DownloadableTile)
    requires t.workingPath == u.workingPath && CacheFilepath(t) == CacheFilepath(u)
    ensures t.tile.slide.instance.id == u.tile.slide.instance.id
    ensures t.tile.slide.zoomLevel == u.tile.slide.zoomLevel
    ensures t.tile.absX == u.tile.absX && t.tile.absY == u.tile.absY
    ensures t.tile.width == u.tile.width && t.tile.height == u.tile.height
  {
    JoinInjective(t.workingPath, CacheFilename(t), CacheFilename(u));
    var a, b := t.tile, u.tile;
    CacheNameInjective(a.slide.instance.id, a.slide.zoomLevel, a.absX, a.absY, a.width, a.height,
                       b.slide.instance.id, b.slide.zoomLevel, b.absX, b.absY, b.width, b.height);
  }

  /** The name of the tile with id 12 at zoom 0, offset (256, 512), size 256 x 256. */
  lemma CacheNameExample()
    ensures CacheName(12, 0, 256, 512, 256, 256) == "12-0-256-512-256-256.png"
  {
    NumeralExamples();
  }

  /** The decimal forms the example needs. */
  lemma NumeralExamples()
    ensures IntToString(0) == "0" && IntToString(12) == "12"
    ensures IntToString(256) == "256" && IntToString(512) == "512"
  {
    assert NatToString(1) == "1" && NatToString(2) == "2" && NatToString(5) == "5";
    assert NatToString(25) == NatToString(2) + "5" == "25";
    assert NatToString(51) == NatToString(5) + "1" == "51";
  }

  /**
   * The IIP linear tile index `col + row * columns`, with `col = absX // 256`,
   * `row = absY // 256` and `columns` the horizontal tile count of the slide's
   * 256-pixel topology. Within the grid it decodes back to the column and row.
   */
  function IipTileIndex(absX: int, absY: int, columns: int): (idx: int)
    ensures 0 <= absX / Grid.TileSize < columns ==>
      idx % columns == absX / Grid.TileSize && idx / columns == absY / Grid.TileSize
  {
    var col, row := absX / Grid.TileSize, absY / Grid.TileSize;
    var idx := col + row * columns;
    assert 0 <= col < columns ==> idx % columns == col && idx / columns == row by {
      if 0 <= col < columns {
        assert idx == columns * row + col;
        DivUnique(idx, columns, row, col);
      }
    }
    idx
  }

  /** Distinct grid cells get distinct IIP indices. */
  lemma IipTileIndexInjective(x1: int, y1: int, x2: int, y2: int, columns: int)
    requires 0 <= x1 / Grid.TileSize < columns && 0 <= x2 / Grid.TileSize < columns
    requires IipTileIndex(x1, y1, columns) == IipTileIndex(x2, y2, columns)
    ensures x1 / Grid.TileSize == x2 / Grid.TileSize && y1 / Grid.TileSize == y2 / Grid.TileSize
  {
  }

  /**
   * `download_tile_image`'s request. The IIP protocol of sldc_cytomine/tile.py
   * refuses, with a `TypeError`, any base image that is not a (modern)
   * `CytomineSlide`. The older one makes no such check, but it reads the
   * slide's `slice_instance`, which `LegacyCytomineSlide` lacks: there it
   * raises an `AttributeError`, which the `IOError` handler of `np_image`
   * does not catch.
   */
  function DownloadRequest(t: DownloadableTile, columns: int): (r: Result<Request, Error>)
    ensures r.Err? <==> (t.protocol == Iip && t.tile.slide.kind != Modern)
                        || (t.protocol == AdapterIip && t.tile.slide.kind == Legacy)
    ensures r.Err? && t.protocol == Iip ==> r.error == TypeMismatch
    ensures r.Err? && t.protocol == AdapterIip ==> r.error == MissingAttribute
    ensures r.Ok? && t.protocol in {Iip, AdapterIip} ==>
      r.value.IipTileRequest? && r.value.z == ApiZoomLevel(t.tile.slide)
      && (0 <= t.tile.absX / Grid.TileSize < columns ==>
            r.value.tileIndex % columns == t.tile.absX / Grid.TileSize
            && r.value.tileIndex / columns == t.tile.absY / Grid.TileSize)
    ensures r.Ok? && t.protocol == Iip ==> r.value.z + t.tile.slide.zoomLevel == t.tile.slide.instance.zoom
    ensures r.Ok? && t.protocol == Zoomify ==>
      r.value == ZoomifyTileRequest(t.tile.absX / Grid.TileSize, t.tile.absY / Grid.TileSize, ApiZoomLevel(t.tile.slide))
    ensures r.Ok? && t.protocol == WindowCrop ==>
      r.value == WindowRequest(t.tile.absX, t.tile.absY, t.tile.width, t.tile.height)
  {
    var tile := t.tile;
    match t.protocol
    case Iip =>
      if tile.slide.kind != Modern then Err(TypeMismatch)
      else Ok(IipTileRequest(IipTileIndex(tile.absX, tile.absY, columns), ApiZoomLevel(tile.slide)))
    case AdapterIip =>
      if tile.slide.kind == Legacy then Err(MissingAttribute)
      else Ok(IipTileRequest(IipTileIndex(tile.absX, tile.absY, columns), ApiZoomLevel(tile.slide)))
    case Zoomify =>
      Ok(ZoomifyTileRequest(tile.absX / Grid.TileSize, tile.absY / Grid.TileSize, ApiZoomLevel(tile.slide)))
    case WindowCrop =>
      Ok(WindowRequest(tile.absX, tile.absY, tile.width, tile.height))
  }

  /**
   * `add_polygon_mask`: the rasterised image, or the image unchanged when
   * rasterisation raises (`rasterize` returns `None`).
   */
  function AddPolygonMask(img: Raster, rasterize: Raster -> Option<Raster>): (r: Raster)
    ensures rasterize(img).None? ==> r == img
    ensures rasterize(img).Some? ==> r == rasterize(img).value
  {
    match rasterize(img)
    case None => img
    case Some(masked) => masked
  }

  /**
   * The checks after reading the cache file: a shape other than
   * (height, width, channels) is a `TileExtractionException`. Since the
   * slide always has three channels, the branch for four channels never runs.
   */
  function CheckDecoded(img: Raster, t: DownloadableTile, rasterize: Raster -> Option<Raster>): (r: Result<Raster, Error>)
    ensures r.Ok? <==> img.height == t.tile.height && img.width == t.tile.width && img.channels == 3
    ensures r.Err? ==> r.error == TileExtraction
    ensures r.Ok? ==> r.value == AddPolygonMask(img, rasterize)
  {
    if img.height != t.tile.height || img.width != t.tile.width || img.channels != Channels(t.tile.slide) then
      Err(TileExtraction)
    else
      Ok(AddPolygonMask(img, rasterize))
  }

  /** The local file system, as a map from paths to the images stored there. */
  class Disk {
    var files: map<string, Raster>

    constructor (files: map<string, Raster>)
      ensures this.files == files
    {
      this.files := files;
    }
  }

  /**
   * `CytomineDownloadableTile.np_image`: download into the cache file only
   * when it is absent, then read and check it. `download` is the server: it
   * answers a request with the image it wrote to the cache file, or `None`
   * for a falsy result; `rasterize` is `alpha_rasterize` with the tile's mask.
   */
  method FetchTileImage(disk: Disk, t: DownloadableTile, columns: int,
                        download: Request -> Option<Raster>, rasterize: Raster -> Option<Raster>)
    returns (r: Result<Raster, Error>, requested: Option<Request>)
    modifies disk
    ensures requested.Some? <==> CacheFilepath(t) !in old(disk.files) && DownloadRequest(t, columns).Ok?
    ensures requested.Some? ==> requested.value == DownloadRequest(t, columns).value
    ensures disk.files == if requested.Some? && download(requested.value).Some?
      then old(disk.files)[CacheFilepath(t) := download(requested.value).value]
      else old(disk.files)
    ensures CacheFilepath(t) !in old(disk.files) && DownloadRequest(t, columns).Err? ==>
      r == Err(DownloadRequest(t, columns).error)
    ensures requested.Some? && download(requested.value).None? ==> r == Err(TileExtraction)
    ensures CacheFilepath(t) in old(disk.files) || (requested.Some? && download(requested.value).Some?) ==>
      r == CheckDecoded(disk.files[CacheFilepath(t)], t, rasterize)
  {
    var path := CacheFilepath(t);
    requested := None;
    if path !in disk.files {
      var request := DownloadRequest(t, columns);
      if request.Err? {
        return Err(request.error), None;
      }
      requested := Some(request.value);
      var written := download(request.value);
      if written.None? {
        return Err(TileExtraction), requested;
      }
      disk.files := disk.files[path := written.value];
    }
    r := CheckDecoded(disk.files[path], t, rasterize);
  }

  /**
   * Fetching a tile a second time after a successful first fetch makes no
   * request and returns the same image.
   */
  method FetchTwice(disk: Disk, t: DownloadableTile, columns: int,
                    download: Request -> Option<Raster>, rasterize: Raster -> Option<Raster>)
    returns (first: Result<Raster, Error>, second: Result<Raster, Error>, again: Option<Request>)
    modifies disk
    ensures first.Ok? ==> again.None? && second == first
    ensures first.Ok? && CacheFilepath(t) in old(disk.files) ==> disk.files == old(disk.files)
    ensures first.Ok? ==>
      CacheFilepath(t) in disk.files && disk.files == old(disk.files)[CacheFilepath(t) := disk.files[CacheFilepath(t)]]
  {
    var firstRequest;
    first, firstRequest := FetchTileImage(disk, t, columns, download, rasterize);
    second, again := FetchTileImage(disk, t, columns, download, rasterize);
  }
}
