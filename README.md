# sldc-cytomine tile reconstruction, modelled in Dafny

sldc-cytomine lets the sldc image-processing framework read pixel windows of
whole-slide images stored on a Cytomine server. The IIP and Zoomify endpoints
serve fixed 256 × 256 tiles, and `CytomineTile.np_image` always reads through
256 × 256 sub-tiles, whatever the protocol. To read an arbitrary window, it does four things:

- it widens the window to the 256-pixel grid;
- it fetches every grid tile of that super-window, each one cached on disk under a deterministic file name;
- it writes the tiles into a zero-filled buffer;
- it trims the buffer back to the requested window.

`TileCache` adds a second, path-keyed memo on top. This project models that
core:

| file | module | what it models |
|---|---|---|
| `common.dfy` | `Common` | 8-bit samples, decoded rasters (numpy arrays of shape height × width × channels), `Option`/`Result`, the exceptions raised |
| `naming.dfy` | `Naming` | Python's `str()` of an integer, `os.path.join`, and the fact that integer fields followed by a non-digit separator can be read back |
| `slides.dfy` | `Slides` | the three slide classes: dimensions at a zoom level, server zoom index, zoom validation |
| `grid.dfy` | `Grid` | the margins, the grid-aligned super-window, and Python's slice normalisation for the final crop |
| `mosaic.dfy` | `Mosaic` | the zero-initialised `rebuilt` buffer (an `array3`), the per-tile writes (padded and unpadded), the crop, and a value-level specification of the mosaic |
| `protocols.dfy` | `Protocols` | cache file names, IIP / Zoomify / window tile addressing, and the cache-first download of one tile into a `Disk` (a map from paths to rasters) |
| `tilecache.dfy` | `TileCaching` | the `TileCache` path scheme and the class that memoises tile images |
| `builders.dfy` | `Builders` | argument forwarding by the tile builders |

Several things from outside are parameters of the model:

- The image server is a function from requests to an optional raster (`None` is a falsy download result).
- `alpha_rasterize` is a function that may fail (`None`).
- Each sub-tile's decoded image, or its exception, is an input of the mosaic assembly.
- The sub-tile offsets come from sldc's `TileTopology`, which is not part of this model. They enter as a precondition: every sub-tile sits on the grid, inside the buffer.

The right and bottom margins follow the code, which computes
`256 - (end % 256)` and so gives an aligned edge a whole spare tile. Giving an
aligned edge a zero margin instead would make the crop `rebuilt[top:-0, ...]`
empty (`Grid.ZeroMarginCropIsEmpty`).

## Model

| member | source | states |
|---|---|---|
| Slides.Scaled | sldc_cytomine/image.py:36-42 | `full // 2**zoom_level` brackets the full-resolution size: d·2^z ≤ full < (d+1)·2^z |
| Slides.Width | sldc_cytomine/image.py:36-38 | the width at a zoom level is the instance width floor-divided by 2^zoom_level (the bracket above), and the instance width itself at zoom level 0 |
| Slides.Height | sldc_cytomine/image.py:40-42 | the height at a zoom level is the instance height floor-divided by 2^zoom_level (the bracket above), and the instance height itself at zoom level 0 |
| Slides.ScaledIsFloor | sldc_cytomine/image.py:36-42 | for every d: d·2^z ≤ full < (d+1)·2^z holds exactly when d is the width or height `full // 2**zoom_level` |
| Slides.Channels | sldc_cytomine/image.py:32-34 | every slide has 3 channels |
| Slides.ApiZoomLevel | sldc_cytomine/image.py:75-89 | server zoom + zoom_level equals the instance's zoom for `CytomineSlide` (and the older adapter slide), and its depth for `LegacyCytomineSlide` |
| Slides.OpenSlide | sldc_cytomine/image.py:64-69 | `ValueError` exactly when zoom_level > instance zoom; otherwise a modern slide whose server zoom lies in [0, zoom] |
| Slides.OpenLegacySlide | sldc_cytomine/image.py:83-89 | no validation; server zoom is depth − zoom_level |
| Slides.OpenAdapterSlide | sldc_cytomine/image_adapter.py:25-75 | same zoom check as the modern slide; width/height floor-divided by 2^zoom_level; server zoom is zoom − zoom_level |
| Slides.SlideNpImage | sldc_cytomine/image.py:44-46 | a whole slide's `np_image` always raises `NotImplementedError` |
| Slides.ScaledHalves | sldc_cytomine/image.py:36-42 | the dimension at zoom_level+1 is the one at zoom_level floor-divided by 2 |
| Slides.ScaledNonIncreasing | sldc_cytomine/image.py:36-42 | dimensions never grow as zoom_level grows (induction over the levels) |
| Slides.SlideDimensionsHalve | sldc_cytomine/image.py:36-42 | a slide's width and height halve (floor) from one zoom level to the next |
| Grid.PlanFor | sldc_cytomine/tile.py:152-159 | left/top in [0,256); right/bottom in [1,256], equal to 256 iff the window end is aligned; super-window offset aligned, at most 255 before the window; super sides multiples of 256, ending 1..256 pixels past the window; window at (left, top) inside it |
| Grid.SliceIndex | sldc_cytomine/tile.py:175 | Python's normalisation of a slice bound: in [0, n], a negative bound b ≥ −n becomes n + b |
| Grid.CropIsExact | sldc_cytomine/tile.py:152-175 | `rebuilt[top:-bottom, left:-right]` selects exactly rows top..top+height and columns left..left+width |
| Grid.ZeroMarginCropIsEmpty | sldc_cytomine/tile.py:154-155 | had an aligned edge got margin 0, the slice `[m:-0]` would select nothing |
| Grid.AlignedEdgeFetchesSpareTile | sldc_cytomine/tile.py:154-159 | on an aligned right edge the last tile column starts where the window ends |
| Grid.PlanExample | sldc_cytomine/tile.py:152-159 | window (300, 300, 500, 500): margins 44, 44, 224, 224 and super-window (256, 256, 768, 768) |
| Mosaic.PadTile | sldc_cytomine/tile.py:144-148 | `_pad_iip_tile`: 256 × 256, same channels, equal to the input on its extent and 0 elsewhere |
| Mosaic.BlocksDisjoint | sldc_cytomine/tile.py:169-173 | two grid-aligned 256 × 256 blocks that share a cell are the same block |
| Mosaic.MosaicCovered | sldc_cytomine/tile.py:169-173 | a buffer cell covered by a tile holds that tile's (padded) sample, whatever the other tiles |
| Mosaic.MosaicUncovered | sldc_cytomine/tile.py:169 | a cell no tile covers stays 0 |
| Mosaic.MosaicSameAt | sldc_cytomine/tile.py:170-173 | two orders of the same tiles give the same value at any cell |
| Mosaic.MosaicOrderIndependent | sldc_cytomine/tile.py:170-173 | the mosaic does not depend on the order in which tiles complete |
| Mosaic.WindowPixelFromTile | sldc_cytomine/tile.py:169-175 | output pixel (i, j) is the sample of the tile covering (top+i, left+j) |
| Mosaic.WriteBlock | sldc_cytomine/tile.py:171-173 | `rebuilt[y:y+256, x:x+256] = block` sets the covered cells to the block and leaves every other cell unchanged |
| Mosaic.WriteTiles | sldc_cytomine/tile.py:169-173 | the write loop over a zero buffer succeeds iff every tile can be written in the chosen mode, and then the buffer equals the mosaic specification at every cell |
| Mosaic.Crop | sldc_cytomine/tile.py:175 | the crop has height × width × 3 samples, pixel (i, j) being `rebuilt[top+i, left+j]` |
| Mosaic.Assemble | sldc_cytomine/tile.py:169-175 | succeeds iff every tile was fetched and is writable; otherwise raises a failed tile's exception or a shape error; on success the result is height × width × 3 and equals the mosaic specification, cropped |
| Mosaic.NpImage | sldc_cytomine/tile.py:150-175 | with padding: succeeds iff every sub-tile download succeeded; the result is the requested window of the mosaic |
| Mosaic.NpImageUnpadded | sldc_cytomine/image_adapter.py:183-207 | without padding: succeeds iff every tile was fetched and is 256 (or 1) along each axis; a fetched tile of another size raises a shape error |
| Mosaic.UnpaddedRefusesShortEdgeTile | sldc_cytomine/image_adapter.py:205 | a window at the slide's right edge whose last tile is 100 pixels wide is accepted with padding and refused without |
| Naming.IntToString | sldc_cytomine/tile.py:27-28 | `"{}".format(i)`: a leading '-' iff negative, digits everywhere else |
| Naming.NatToStringInjective | sldc_cytomine/tile.py:27-28 | distinct naturals print differently (induction on the digits) |
| Naming.IntToStringInjective | sldc_cytomine/tile.py:27-28 | distinct integers print differently |
| Naming.FieldSplit | sldc_cytomine/tile.py:27-28 | an integer followed by a non-digit separator can be split off uniquely |
| Naming.Join | sldc_cytomine/tile.py:30-32 | `os.path.join` ends with the name and, for a relative name, starts with the directory |
| Naming.JoinInjective | sldc_cytomine/tile.py:30-32 | joining onto one directory keeps relative names apart |
| Protocols.CacheName | sldc_cytomine/tile.py:22-28 | `"{id}-{zoom}-{x}-{y}-{w}-{h}.png"`: starts with the id and '-', ends with `.png`, is relative |
| Protocols.CacheFilename | sldc_cytomine/tile.py:22-28 | the tile's cache name starts with the image id and the slide's zoom level, each followed by '-', ends with `.png` and is relative |
| Protocols.CacheFilenameIgnoresParent | sldc_cytomine/tile.py:22-28 | the name uses the absolute offset: neither the offset in the parent, the protocol nor the working directory changes it |
| Protocols.CacheFilepath | sldc_cytomine/tile.py:30-32 | the cache path extends the working directory and ends with the cache name |
| Protocols.CacheNameInjective | sldc_cytomine/image_adapter.py:90-96 | the six integers, negative ones included, can be read back from the name |
| Protocols.CacheFilepathInjective | sldc_cytomine/tile.py:22-32 | in one working directory, two tiles share a cache file only if they agree on id, zoom level, absolute offset and size |
| Protocols.CacheNameExample | sldc_cytomine/tile.py:22-28 | the name of tile 12 at zoom 0, offset (256, 512), 256 × 256 is `12-0-256-512-256-256.png` |
| Protocols.IipTileIndex | sldc_cytomine/tile.py:84-86 | the IIP index decodes back to (abs_x // 256, abs_y // 256) when the column lies inside the grid |
| Protocols.IipTileIndexInjective | sldc_cytomine/tile.py:84-86 | distinct grid cells get distinct IIP indices |
| Protocols.DownloadRequest | sldc_cytomine/tile.py:60-105 | an error exactly when the IIP tile gets a slide other than `CytomineSlide` (`TypeError`) or the older IIP tile of sldc_cytomine/image_adapter.py:128-141 gets a `LegacyCytomineSlide`, which has no `slice_instance` (`AttributeError`, not caught by `np_image`); otherwise the IIP, Zoomify or window request with the right column, row, index and server zoom |
| Protocols.AddPolygonMask | sldc_cytomine/tile.py:53-57 | the rasterised image, or the input unchanged when rasterisation raises |
| Protocols.CheckDecoded | sldc_cytomine/tile.py:40-49 | `TileExtractionException` iff the decoded shape is not (height, width, 3); the 4-channel branch is unreachable |
| Protocols.FetchTileImage | sldc_cytomine/tile.py:34-51 | a request is made iff the cache file is absent (and the protocol accepts the slide); a falsy download raises `TileExtractionException`; the disk gains exactly the downloaded file; the result is the checked, masked content of the cache file |
| Protocols.FetchTwice | sldc_cytomine/tile.py:37 | after a successful fetch, fetching again requests nothing and returns the same image; the disk then holds the cache file, and nothing but that file changed (nothing at all if it was already cached) |
| TileCaching.TileName | build/lib/sldc_cytomine/tile_builder.py:168-172 | the name starts with the image id followed by `_`, and ends with the height followed by `.png`, or by `_alpha.png` with alpha (the fields in between are pinned by `TilePathInjective`) |
| TileCaching.TilePath | build/lib/sldc_cytomine/tile_builder.py:153-172 | the path ends with `.png`; with alpha it ends with `_alpha.png`, without it a digit precedes `.png` |
| TileCaching.TilePathInjective | build/lib/sldc_cytomine/tile_builder.py:153-172 | in one directory the path determines the image id, relative offset, size and alpha flag |
| TileCaching.AlphaPathsDiffer | sldc_cytomine/image_adapter.py:362-366 | no alpha path equals any path without alpha |
| TileCaching.TilePathIgnoresZoom | sldc_cytomine/image_adapter.py:362-363 | the path depends on the relative offset and not on the zoom level or absolute offset |
| TileCaching.TileCache.CacheHas | build/lib/sldc_cytomine/tile_builder.py:141-151 | true exactly when the store holds a file at the tile's path, whatever the tile's zoom level and absolute offset |
| TileCaching.TileCache.Save | build/lib/sldc_cytomine/tile_builder.py:128-139 | the store maps the tile's path to the image, and `_cache_has` then holds |
| TileCaching.TileCache.PolygonFetchAndCache | build/lib/sldc_cytomine/tile_builder.py:68-89 | fetches iff nothing is stored at the alpha-flagged path; on success returns that path, which is then cached; the store changes only by saving the fetched image there |
| TileCaching.TileCache.FetchAndCache | build/lib/sldc_cytomine/tile_builder.py:52-66 | the same without alpha: fetch only on a miss, returned path is `_tile_path(tile, False)`, after which `_cache_has` holds |
| TileCaching.TileCache.TileNpImage | build/lib/sldc_cytomine/tile_builder.py:91-106 | on a hit the stored image and an unchanged store; on a miss the fetched image, saved at the tile's path with every other entry unchanged; a failed fetch leaves the store untouched |
| TileCaching.TileCache.PolygonNpImage | build/lib/sldc_cytomine/tile_builder.py:108-126 | looks the boxing tile up under the path without alpha, whatever `alpha` is; the store changes only by saving a successfully fetched image at that path |
| TileCaching.TileCache.FetchAndCacheTwice | sldc_cytomine/image_adapter.py:246-260 | after a successful `fetch_and_cache`, a second one fetches nothing, writes nothing and returns the same path |
| Builders.GenericBuild | build/lib/sldc_cytomine/tile_builder.py:14-15 | with nothing stored, `cls` gets the call's arguments alone; a call without arguments passes exactly the stored ones |
| Builders.StoredArgumentsComeFirst | build/lib/sldc_cytomine/tile_builder.py:9-15 | the stored positional arguments precede the call's; storing them equals passing them first |
| Builders.NewTileBuilder | build/lib/sldc_cytomine/tile_builder.py:23-38 | defaults: IIP protocol and 0 jobs; given values are kept |
| Builders.Build | build/lib/sldc_cytomine/tile_builder.py:40-42 | working path, tile class and job count reach the tile unchanged, with the call's image, offset, size and mask |
| Builders.NewAdapterTileBuilder | sldc_cytomine/image_adapter.py:224-233 | the older builder: working path kept, 0 jobs by default |
| Builders.AdapterBuild | sldc_cytomine/image_adapter.py:235-236 | the older builder's tiles always use the older IIP tiles and get its working path and job count |

## Left out

- Network access is left out: `download_file`, `get('imaging_server.json')`, `image_instance.window`, `ImageInstance.fetch` and `reference_slice()`. The server is a function from requests to an optional raster. The Zoomify tile's server URL and the request payload fields other than the tile address are not modelled.
- `parallel.generic_download` and its worker pool are left out, and `n_jobs` has no effect here. The model fetches every tile first, then writes in list order. `Mosaic.MosaicOrderIndependent` covers every other completion order.
- Mosaic.Assemble: states only that the error raised is one of the failed tiles' exceptions, because which failure surfaces first depends on the worker pool's scheduling.
- sldc's `TileTopology`, `Image.window` and `Tile` offset bookkeeping are not part of this model. The sub-tile offsets and the horizontal tile count of the IIP topology are inputs. The assembly's precondition that sub-tiles sit on the grid, inside the buffer, and decode to at most 256 × 256 × 3 is what that topology and the download's shape check guarantee.
- `alpha_rasterize` and shapely polygons are an external library. Rasterisation is a function that may fail.
- PNG decoding and encoding (`imread`, `imsave`, `PIL.Image.open`, `fromarray`) are left out. A file holds the raster it was written with.
- A decoded grayscale (2-D) image is left out. The source would raise `IndexError` on `shape[2]`, but rasters here always have a channel axis.
- Slides: zoom levels are natural numbers. A negative `zoom_level` makes `2 ** zoom_level` a float in Python, which is not modelled.
- Protocols.IipTileIndex: decoding the index back to column and row is stated only for columns inside the grid (0 ≤ col < count), since outside it the index aliases another cell.
- `os.makedirs` in the `CytomineTile` constructor is left out. Directories always exist here.
- The `__str__` methods, `from_id`, the tile identifiers, the demonstration block at the end of sldc_cytomine/image_adapter.py, sldc_cytomine/dump.py and sldc_cytomine/autodetect.py are left out. They are I/O and network entry points.
- Naming.Join: models `os.path.join` on POSIX only. Windows path semantics (drive letters, `\\` separators) are not modelled, although the demonstration block of sldc_cytomine/image_adapter.py uses a Windows working path.
- `CytomineGenericTileBuilder.build` is modelled with arguments of a single type. Python's heterogeneous `*args` are not modelled.

## Findings

| source | as written | input that shows it | evidently intended | confidence | as-written member | corrected member |
|---|---|---|---|---|---|---|
| sldc_cytomine/image_adapter.py:205 | each fetched tile is written unpadded into a 256 × 256 slice of `rebuilt` | a 300 × 200 window at (0, 0) of a slide 356 pixels wide: the second tile of the super-window comes back 256 × 100, and the slice assignment raises a numpy shape error | short edge tiles are zero-padded to 256 × 256 before the write, as sldc_cytomine/tile.py:173 does | medium, not executed | Mosaic.UnpaddedRefusesShortEdgeTile | Mosaic.NpImage |
