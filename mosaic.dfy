/**
 * Mosaic assembly for `CytomineTile.np_image`: every 256 x 256 sub-tile of the
 * grid-aligned super-window is written at its offset into a zero-initialised
 * buffer, and the buffer is trimmed back to the requested window.
 *
 * sldc_cytomine/tile.py zero-pads short edge tiles to 256 x 256 before writing
 * them (`_pad_iip_tile`); the older sldc_cytomine/image_adapter.py writes them
 * as they are, so numpy's broadcasting rules decide whether the write works.
 */
module Mosaic {
  import opened Common
  import opened Grid

  /**
   * One sub-tile as the download fan-out hands it back: its offset inside the
   * super-window and its decoded image, or the exception its fetch raised.
   */
  datatype SubTile = SubTile(offsetY: int, offsetX: int, fetched: Result<Raster, Error>)

  /** What the shape check of the tile download lets through: at most a tile, three channels. */
  predicate Fits(img: Raster) {
    img.Valid() && img.height <= TileSize && img.width <= TileSize && img.channels == SlideChannels
  }

  /**
   * Whether `rebuilt[y:y+256, x:x+256, :] = img` succeeds without padding:
   * numpy broadcasts an axis of length 1 and refuses any other length but 256.
   */
  predicate Broadcastable(img: Raster) {
    (img.height == TileSize || img.height == 1) && (img.width == TileSize || img.width == 1)
  }

  /** The image can be written into a tile block in the chosen mode. */
  predicate Writable(img: Raster, padEdgeTiles: bool) {
    Fits(img) && (padEdgeTiles || Broadcastable(img))
  }

  /** Where the topology of the super-window puts a tile: on the grid, its block inside the buffer. */
  predicate Placed(t: SubTile, height: int, width: int) {
    && t.offsetY % TileSize == 0 && 0 <= t.offsetY && t.offsetY + TileSize <= height
    && t.offsetX % TileSize == 0 && 0 <= t.offsetX && t.offsetX + TileSize <= width
    && (t.fetched.Ok? ==> Fits(t.fetched.value))
  }

  predicate AllPlaced(ts: seq<SubTile>, height: int, width: int) {
    forall n :: 0 <= n < |ts| ==> Placed(ts[n], height, width)
  }

  predicate OnGrid(ts: seq<SubTile>) {
    forall n :: 0 <= n < |ts| ==> ts[n].offsetY % TileSize == 0 && ts[n].offsetX % TileSize == 0
  }

  predicate AllFetched(ts: seq<SubTile>) {
    forall n :: 0 <= n < |ts| ==> ts[n].fetched.Ok?
  }

  /** Every tile was fetched and can be written in the chosen mode. */
  predicate Ready(ts: seq<SubTile>, padEdgeTiles: bool) {
    forall n :: 0 <= n < |ts| ==> ts[n].fetched.Ok? && Writable(ts[n].fetched.value, padEdgeTiles)
  }

  /** No two tiles of the topology share a grid cell. */
  predicate DistinctCells(ts: seq<SubTile>) {
    forall a, b :: 0 <= a < b < |ts| ==> ts[a].offsetY != ts[b].offsetY || ts[a].offsetX != ts[b].offsetX
  }

  /** The 256 x 256 block written for `t` contains buffer cell (i, j). */
  predicate Covers(t: SubTile, i: int, j: int) {
    t.offsetY <= i < t.offsetY + TileSize && t.offsetX <= j < t.offsetX + TileSize
  }

  /** Sample (i, j, k) of `img` zero-padded on the bottom and the right. */
  function PadSample(img: Raster, i: nat, j: nat, k: nat): (b: byte)
    requires img.Valid() && k < img.channels
  {
    if i < img.height && j < img.width then img.px[i][j][k] else 0
  }

  /**
   * `_pad_iip_tile`: `np.pad` with `(0, 256 - h)` rows and `(0, 256 - w)`
   * columns of constant 0, channels untouched.
   */
  function PadTile(img: Raster): (p: Raster)
    requires img.Valid() && img.height <= TileSize && img.width <= TileSize
    ensures p.Valid() && p.height == TileSize && p.width == TileSize && p.channels == img.channels
    ensures forall i, j, k :: 0 <= i < img.height && 0 <= j < img.width && 0 <= k < img.channels ==>
      p.px[i][j][k] == img.px[i][j][k]
    ensures forall i, j, k ::
      (0 <= i < TileSize && 0 <= j < TileSize && 0 <= k < img.channels && (img.height <= i || img.width <= j))
      ==> p.px[i][j][k] == 0
  {
    var c := img.channels;
    Raster(TileSize, TileSize, c,
      seq(TileSize, i requires 0 <= i < TileSize =>
        seq(TileSize, j requires 0 <= j < TileSize =>
          seq(c, k requires 0 <= k < c => PadSample(img, i, j, k)))))
  }

  /** Sample (i, j, k) of the 256 x 256 block that writing `img` produces. */
  function BlockSample(img: Raster, padEdgeTiles: bool, i: nat, j: nat, k: nat): (b: byte)
    requires Writable(img, padEdgeTiles) && i < TileSize && j < TileSize && k < SlideChannels
  {
    if padEdgeTiles then PadSample(img, i, j, k)
    else img.px[if img.height == 1 then 0 else i][if img.width == 1 then 0 else j][k]
  }

  /**
   * The buffer after writing `ts` in order into `np.zeros`: the block of the
   * last tile covering (i, j), or 0 where no tile was written.
   */
  function MosaicAt(ts: seq<SubTile>, padEdgeTiles: bool, i: int, j: int, k: nat): (b: byte)
    requires Ready(ts, padEdgeTiles) && k < SlideChannels
  {
    if ts == [] then 0
    else
      var t := ts[|ts| - 1];
      if Covers(t, i, j) then BlockSample(t.fetched.value, padEdgeTiles, i - t.offsetY, j - t.offsetX, k)
      else MosaicAt(ts[..|ts| - 1], padEdgeTiles, i, j, k)
  }

  /** A grid-aligned block starting at or before `i`, less than a tile before it, starts at `i - i % 256`. */
  lemma AlignedStart(o: int, i: int)
    requires o % TileSize == 0 && o <= i < o + TileSize
    ensures o == i - i % TileSize
  {
  }

  /** Blocks of tiles in different grid cells never overlap. */
  lemma BlocksDisjoint(a: SubTile, b: SubTile, i: int, j: int)
    requires a.offsetY % TileSize == 0 && a.offsetX % TileSize == 0
    requires b.offsetY % TileSize == 0 && b.offsetX % TileSize == 0
    ensures Covers(a, i, j) && Covers(b, i, j) ==> a.offsetY == b.offsetY && a.offsetX == b.offsetX
  {
    if Covers(a, i, j) && Covers(b, i, j) {
      AlignedStart(a.offsetY, i);
      AlignedStart(b.offsetY, i);
      AlignedStart(a.offsetX, j);
      AlignedStart(b.offsetX, j);
    }
  }

  /**
   * With tiles in distinct grid cells, a cell covered by tile `m` holds that
   * tile's block sample, whatever the other tiles are and whenever `m` was written.
   */
  lemma {:induction false} MosaicCovered(ts: seq<SubTile>, padEdgeTiles: bool, m: nat, i: int, j: int, k: nat)
    requires Ready(ts, padEdgeTiles) && OnGrid(ts) && DistinctCells(ts) && k < SlideChannels
    requires m < |ts| && Covers(ts[m], i, j)
    ensures MosaicAt(ts, padEdgeTiles, i, j, k)
         == BlockSample(ts[m].fetched.value, padEdgeTiles, i - ts[m].offsetY, j - ts[m].offsetX, k)
    decreases |ts|
  {
    var last := |ts| - 1;
    if m < last {
      BlocksDisjoint(ts[m], ts[last], i, j);
      var prefix := ts[..last];
      assert prefix[m] == ts[m];
      MosaicCovered(prefix, padEdgeTiles, m, i, j, k);
    }
  }

  /** A cell no tile covers keeps the 0 it was allocated with. */
  lemma {:induction false} MosaicUncovered(ts: seq<SubTile>, padEdgeTiles: bool, i: int, j: int, k: nat)
    requires Ready(ts, padEdgeTiles) && k < SlideChannels
    requires forall n :: 0 <= n < |ts| ==> !Covers(ts[n], i, j)
    ensures MosaicAt(ts, padEdgeTiles, i, j, k) == 0
    decreases |ts|
  {
    if ts != [] {
      MosaicUncovered(ts[..|ts| - 1], padEdgeTiles, i, j, k);
    }
  }

  /** A tile listed in one ordering of the topology is listed somewhere in the other. */
  lemma IndexInReordering(ts: seq<SubTile>, us: seq<SubTile>, m: nat) returns (m': nat)
    requires multiset(ts) == multiset(us) && m < |ts|
    ensures m' < |us| && us[m'] == ts[m]
  {
    assert ts[m] in multiset(us);
    m' :| 0 <= m' < |us| && us[m'] == ts[m];
  }

  lemma MosaicSameAt(ts: seq<SubTile>, us: seq<SubTile>, padEdgeTiles: bool, i: int, j: int, k: nat)
    requires Ready(ts, padEdgeTiles) && OnGrid(ts) && DistinctCells(ts)
    requires Ready(us, padEdgeTiles) && OnGrid(us) && DistinctCells(us)
    requires multiset(ts) == multiset(us) && k < SlideChannels
    ensures MosaicAt(ts, padEdgeTiles, i, j, k) == MosaicAt(us, padEdgeTiles, i, j, k)
  {
    if exists m :: 0 <= m < |ts| && Covers(ts[m], i, j) {
      var m :| 0 <= m < |ts| && Covers(ts[m], i, j);
      CoveredInReordering(ts, us, padEdgeTiles, m, i, j, k);
    } else {
      MosaicUncovered(ts, padEdgeTiles, i, j, k);
      UncoveredInReordering(ts, us, i, j);
      MosaicUncovered(us, padEdgeTiles, i, j, k);
    }
  }

  /** A cell a tile covers holds that tile's sample in either ordering. */
  lemma CoveredInReordering(ts: seq<SubTile>, us: seq<SubTile>, padEdgeTiles: bool, m: nat, i: int, j: int, k: nat)
    requires Ready(ts, padEdgeTiles) && OnGrid(ts) && DistinctCells(ts)
    requires Ready(us, padEdgeTiles) && OnGrid(us) && DistinctCells(us)
    requires multiset(ts) == multiset(us) && k < SlideChannels
    requires m < |ts| && Covers(ts[m], i, j)
    ensures MosaicAt(ts, padEdgeTiles, i, j, k) == MosaicAt(us, padEdgeTiles, i, j, k)
  {
    var m' := IndexInReordering(ts, us, m);
    MosaicCovered(ts, padEdgeTiles, m, i, j, k);
    MosaicCovered(us, padEdgeTiles, m', i, j, k);
  }

  /** A cell no tile of one ordering covers is covered by no tile of the other. */
  lemma UncoveredInReordering(ts: seq<SubTile>, us: seq<SubTile>, i: int, j: int)
    requires multiset(ts) == multiset(us)
    requires forall n :: 0 <= n < |ts| ==> !Covers(ts[n], i, j)
    ensures forall n :: 0 <= n < |us| ==> !Covers(us[n], i, j)
  {
    forall n | 0 <= n < |us| ensures !Covers(us[n], i, j) {
      var m := IndexInReordering(us, ts, n);
    }
  }

  /**
   * The mosaic does not depend on the order in which downloads complete:
   * any reordering of the tiles yields the same buffer.
   */
  lemma MosaicOrderIndependent(ts: seq<SubTile>, us: seq<SubTile>, padEdgeTiles: bool)
    requires Ready(ts, padEdgeTiles) && OnGrid(ts) && DistinctCells(ts)
    requires Ready(us, padEdgeTiles) && OnGrid(us) && DistinctCells(us)
    requires multiset(ts) == multiset(us)
    ensures forall i, j, k :: 0 <= k < SlideChannels ==>
      MosaicAt(ts, padEdgeTiles, i, j, k) == MosaicAt(us, padEdgeTiles, i, j, k)
  {
    forall i, j, k | 0 <= k < SlideChannels
      ensures MosaicAt(ts, padEdgeTiles, i, j, k) == MosaicAt(us, padEdgeTiles, i, j, k)
    {
      MosaicSameAt(ts, us, padEdgeTiles, i, j, k);
    }
  }

  /**
   * Padding is never shown where a tile has real pixels: a window pixel that
   * falls inside the decoded extent of the tile covering it is that tile's pixel.
   */
  lemma WindowPixelFromTile(region: Region, ts: seq<SubTile>, m: nat, i: nat, j: nat, k: nat)
    requires Ready(ts, true) && OnGrid(ts) && DistinctCells(ts) && k < SlideChannels
    requires m < |ts| && i < region.height && j < region.width
    requires var p := PlanFor(region);
      var y, x := p.top + i - ts[m].offsetY, p.left + j - ts[m].offsetX;
      0 <= y < ts[m].fetched.value.height && 0 <= x < ts[m].fetched.value.width
    ensures var p := PlanFor(region);
      var y, x := p.top + i - ts[m].offsetY, p.left + j - ts[m].offsetX;
      MosaicAt(ts, true, p.top + i, p.left + j, k) == ts[m].fetched.value.px[y][x][k]
  {
    var p := PlanFor(region);
    MosaicCovered(ts, true, m, p.top + i, p.left + j, k);
  }

  /**
   * `rebuilt[y:y+256, x:x+256] = block`: the tile's block replaces the
   * covered cells, every other cell keeps its value.
   */
  method WriteBlock(rebuilt: array3<byte>, t: SubTile, padEdgeTiles: bool)
    requires t.fetched.Ok? && Writable(t.fetched.value, padEdgeTiles)
    requires rebuilt.Length2 == SlideChannels
    requires 0 <= t.offsetY && t.offsetY + TileSize <= rebuilt.Length0
    requires 0 <= t.offsetX && t.offsetX + TileSize <= rebuilt.Length1
    modifies rebuilt
    ensures forall i, j, k :: 0 <= i < rebuilt.Length0 && 0 <= j < rebuilt.Length1 && 0 <= k < SlideChannels ==>
      rebuilt[i, j, k] == (if Covers(t, i, j)
        then BlockSample(t.fetched.value, padEdgeTiles, i - t.offsetY, j - t.offsetX, k)
        else old(rebuilt[i, j, k]))
  {
    var img := t.fetched.value;
    var y, x := t.offsetY, t.offsetX;
    if padEdgeTiles {
      var padded := PadTile(img);
      forall i, j, k | y <= i < y + TileSize && x <= j < x + TileSize && 0 <= k < SlideChannels {
        rebuilt[i, j, k] := padded.px[i - y][j - x][k];
      }
    } else {
      forall i, j, k | y <= i < y + TileSize && x <= j < x + TileSize && 0 <= k < SlideChannels {
        rebuilt[i, j, k] := img.px[if img.height == 1 then 0 else i - y][if img.width == 1 then 0 else j - x][k];
      }
    }
  }

  /** `rebuilt[top:-bottom, left:-right]` as a raster of its own. */
  method Crop(rebuilt: array3<byte>, region: Region) returns (out: Raster)
    requires rebuilt.Length0 == PlanFor(region).super.height && rebuilt.Length1 == PlanFor(region).super.width
    requires rebuilt.Length2 == SlideChannels
    ensures out.Valid() && out.channels == SlideChannels && out.height == region.height && out.width == region.width
    ensures forall i, j, k :: 0 <= i < region.height && 0 <= j < region.width && 0 <= k < SlideChannels ==>
      out.px[i][j][k] == rebuilt[PlanFor(region).top + i, PlanFor(region).left + j, k]
  {
    var plan := PlanFor(region);
    CropIsExact(region);
    var (r0, r1) := SliceBounds(rebuilt.Length0, plan.top, -plan.bottom);
    var (c0, c1) := SliceBounds(rebuilt.Length1, plan.left, -plan.right);
    var px := seq(r1 - r0, i requires 0 <= i < r1 - r0 reads rebuilt =>
      seq(c1 - c0, j requires 0 <= j < c1 - c0 reads rebuilt =>
        seq(SlideChannels, k requires 0 <= k < SlideChannels reads rebuilt => rebuilt[r0 + i, c0 + j, k])));
    out := Raster(r1 - r0, c1 - c0, SlideChannels, px);
  }

  /**
   * `CytomineTile.np_image`: allocate `np.zeros([height, width, 3])` for the
   * super-window, write every sub-tile's 256 x 256 block at its offset, and
   * return `rebuilt[top:-bottom, left:-right]`. The fan-out is sequential
   * here: every fetch completes before any write, as with the list the
   * download helper returns.
   */
  method Assemble(region: Region, tiles: seq<SubTile>, padEdgeTiles: bool) returns (r: Result<Raster, Error>)
    requires AllPlaced(tiles, PlanFor(region).super.height, PlanFor(region).super.width)
    ensures r.Ok? <==> Ready(tiles, padEdgeTiles)
    ensures !AllFetched(tiles) ==> r.Err? && exists n :: 0 <= n < |tiles| && tiles[n].fetched == Err(r.error)
    ensures AllFetched(tiles) && !Ready(tiles, padEdgeTiles) ==> r == Err(ShapeMismatch)
    ensures r.Ok? ==>
      (r.value.Valid() && r.value.channels == SlideChannels
       && r.value.height == region.height && r.value.width == region.width)
    ensures r.Ok? ==>
      forall i, j, k :: 0 <= i < region.height && 0 <= j < region.width && 0 <= k < SlideChannels ==>
        r.value.px[i][j][k] == MosaicAt(tiles, padEdgeTiles, PlanFor(region).top + i, PlanFor(region).left + j, k)
  {
    var plan := PlanFor(region);
    var height, width := plan.super.height, plan.super.width;

    // every download finishes (or raises) before the first write
    var n := 0;
    while n < |tiles|
      invariant 0 <= n <= |tiles|
      invariant AllFetched(tiles[..n])
    {
      if tiles[n].fetched.Err? {
        return Err(tiles[n].fetched.error);
      }
      n := n + 1;
    }
    assert tiles[..n] == tiles;

    var rebuilt := new byte[height, width, SlideChannels]((_, _, _) => 0);
    var written := WriteTiles(rebuilt, tiles, padEdgeTiles);
    if !written {
      return Err(ShapeMismatch);
    }
    var out := Crop(rebuilt, region);
    r := Ok(out);
  }

  /**
   * The write loop of `np_image` over a zero buffer: stops at the first tile
   * whose shape cannot be written; otherwise leaves the buffer holding the mosaic.
   */
  method WriteTiles(rebuilt: array3<byte>, tiles: seq<SubTile>, padEdgeTiles: bool) returns (written: bool)
    requires AllFetched(tiles) && AllPlaced(tiles, rebuilt.Length0, rebuilt.Length1) && rebuilt.Length2 == SlideChannels
    requires forall i, j, k :: 0 <= i < rebuilt.Length0 && 0 <= j < rebuilt.Length1 && 0 <= k < SlideChannels ==>
      rebuilt[i, j, k] == 0
    modifies rebuilt
    ensures written <==> Ready(tiles, padEdgeTiles)
    ensures written ==>
      forall i, j, k :: 0 <= i < rebuilt.Length0 && 0 <= j < rebuilt.Length1 && 0 <= k < SlideChannels ==>
        rebuilt[i, j, k] == MosaicAt(tiles, padEdgeTiles, i, j, k)
  {
    var n := 0;
    while n < |tiles|
      invariant 0 <= n <= |tiles|
      invariant Ready(tiles[..n], padEdgeTiles)
      invariant forall i, j, k :: 0 <= i < rebuilt.Length0 && 0 <= j < rebuilt.Length1 && 0 <= k < SlideChannels ==>
        rebuilt[i, j, k] == MosaicAt(tiles[..n], padEdgeTiles, i, j, k)
    {
      if !Writable(tiles[n].fetched.value, padEdgeTiles) {
        return false;
      }
      WriteBlock(rebuilt, tiles[n], padEdgeTiles);
      assert tiles[..n + 1][..n] == tiles[..n];
      n := n + 1;
    }
    assert tiles[..n] == tiles;
    written := true;
  }

  /** The newer `CytomineTile.np_image` (sldc_cytomine/tile.py): short edge tiles are zero-padded. */
  method NpImage(region: Region, tiles: seq<SubTile>) returns (r: Result<Raster, Error>)
    requires AllPlaced(tiles, PlanFor(region).super.height, PlanFor(region).super.width)
    ensures r.Ok? <==> AllFetched(tiles)
    ensures r.Err? ==> exists n :: 0 <= n < |tiles| && tiles[n].fetched == Err(r.error)
    ensures r.Ok? ==>
      (r.value.Valid() && r.value.channels == SlideChannels
       && r.value.height == region.height && r.value.width == region.width)
    ensures r.Ok? ==>
      forall i, j, k :: 0 <= i < region.height && 0 <= j < region.width && 0 <= k < SlideChannels ==>
        r.value.px[i][j][k] == MosaicAt(tiles, true, PlanFor(region).top + i, PlanFor(region).left + j, k)
  {
    r := Assemble(region, tiles, true);
  }

  /**
   * The older `CytomineTile.np_image` (sldc_cytomine/image_adapter.py): tiles
   * are written unpadded, so a short edge tile fails with a numpy shape error
   * unless its short side is a single pixel (which numpy repeats).
   */
  method NpImageUnpadded(region: Region, tiles: seq<SubTile>) returns (r: Result<Raster, Error>)
    requires AllPlaced(tiles, PlanFor(region).super.height, PlanFor(region).super.width)
    ensures r.Ok? <==> Ready(tiles, false)
    ensures r.Ok? ==> forall n :: 0 <= n < |tiles| ==> Broadcastable(tiles[n].fetched.value)
    ensures AllFetched(tiles) && (exists n :: 0 <= n < |tiles| && !Broadcastable(tiles[n].fetched.value))
      ==> r == Err(ShapeMismatch)
    ensures r.Ok? ==>
      (r.value.Valid() && r.value.channels == SlideChannels
       && r.value.height == region.height && r.value.width == region.width)
    ensures r.Ok? ==>
      forall i, j, k :: 0 <= i < region.height && 0 <= j < region.width && 0 <= k < SlideChannels ==>
        r.value.px[i][j][k] == MosaicAt(tiles, false, PlanFor(region).top + i, PlanFor(region).left + j, k)
  {
    r := Assemble(region, tiles, false);
  }

  /** A black image of the given size with three channels. */
  function Black(height: nat, width: nat): (img: Raster)
    ensures img.Valid() && img.height == height && img.width == width && img.channels == SlideChannels
  {
    Raster(height, width, SlideChannels, seq(height, _ => seq(width, _ => seq(SlideChannels, _ => 0))))
  }

  /**
   * A window of 300 x 200 pixels at the origin of a slide 356 pixels wide:
   * its super-window is two tiles wide, and the server returns the second
   * tile 100 pixels wide. Padding accepts that tile; the unpadded write
   * refuses it (so `NpImageUnpadded` fails where `NpImage` succeeds).
   */
  lemma UnpaddedRefusesShortEdgeTile()
    ensures var region := Region(0, 0, 300, 200);
      var tiles := [SubTile(0, 0, Ok(Black(256, 256))), SubTile(0, 256, Ok(Black(256, 100)))];
      && PlanFor(region).super == Region(0, 0, 512, 256)
      && AllPlaced(tiles, PlanFor(region).super.height, PlanFor(region).super.width)
      && Ready(tiles, true) && !Ready(tiles, false)
  {
    var tiles := [SubTile(0, 0, Ok(Black(256, 256))), SubTile(0, 256, Ok(Black(256, 100)))];
    assert !Broadcastable(tiles[1].fetched.value);
  }
}
