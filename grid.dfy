/**
 * Grid planning for `CytomineTile.np_image` (sldc_cytomine/tile.py and the
 * older copy in sldc_cytomine/image_adapter.py): the margins that widen a
 * requested window to the server's 256-pixel tile grid, and the Python slice
 * `rebuilt[top:-bottom, left:-right]` that trims the mosaic back.
 */
module Grid {

  /** Side of a server tile, hard-coded as 256 throughout the source. */
  const TileSize: int := 256

  /** A requested window: absolute offset in the slide and size. */
  datatype Region = Region(x: int, y: int, width: nat, height: nat)

  /** Margins around the requested window and the grid-aligned super-window they give. */
  datatype Plan = Plan(left: int, top: int, right: int, bottom: int, super: Region)

  /**
   * The margins as the source computes them. Python's `%` by a positive
   * modulus never returns a negative value, like Dafny's. When the window's
   * right (bottom) edge is already on the grid, the margin is a whole tile,
   * not zero.
   */
  function PlanFor(r: Region): (p: Plan)
    ensures 0 <= p.left < TileSize && 0 <= p.top < TileSize
    ensures 1 <= p.right <= TileSize && 1 <= p.bottom <= TileSize
    ensures p.right == TileSize <==> (r.x + r.width) % TileSize == 0
    ensures p.bottom == TileSize <==> (r.y + r.height) % TileSize == 0
    // the super-window starts on the grid, at or before the window, less than a tile before it
    ensures p.super.x % TileSize == 0 && p.super.x <= r.x < p.super.x + TileSize
    ensures p.super.y % TileSize == 0 && p.super.y <= r.y < p.super.y + TileSize
    // its sides are whole tiles and it ends strictly after the window, by at most a tile
    ensures p.super.width % TileSize == 0 && p.super.height % TileSize == 0
    ensures r.x + r.width < p.super.x + p.super.width <= r.x + r.width + TileSize
    ensures r.y + r.height < p.super.y + p.super.height <= r.y + r.height + TileSize
    // the requested window sits at (left, top) inside the super-window
    ensures r.x == p.super.x + p.left && r.y == p.super.y + p.top
    ensures p.super.width == p.left + r.width + p.right && p.super.height == p.top + r.height + p.bottom
  {
    AxisMargins(r.x, r.width);
    AxisMargins(r.y, r.height);
    var left := r.x % TileSize;
    var top := r.y % TileSize;
    var right := TileSize - (r.x + r.width) % TileSize;
    var bottom := TileSize - (r.y + r.height) % TileSize;
    Plan(left, top, right, bottom,
         Region(r.x - left, r.y - top, r.width + left + right, r.height + top + bottom))
  }

  /** The margins along one axis: the window `[x, x + w)` widened to whole tiles on both sides. */
  lemma AxisMargins(x: int, w: int)
    ensures var before, after := x % TileSize, TileSize - (x + w) % TileSize;
      && (x - before) % TileSize == 0
      && (w + before + after) % TileSize == 0
  {
    var q1, q2 := x / TileSize, (x + w) / TileSize;
    assert x - x % TileSize == TileSize * q1;
    assert w + x % TileSize + TileSize - (x + w) % TileSize == TileSize * (q2 - q1 + 1);
  }

  /**
   * Python's normalisation of one slice bound against a length `n`
   * (step 1): negative bounds count from the end, then both are clamped.
   */
  function SliceIndex(n: nat, b: int): (i: nat)
    ensures i <= n
    ensures 0 <= b <= n ==> i == b
    ensures 0 - n <= b < 0 ==> i == n + b
  {
    if b < 0 then (if n + b < 0 then 0 else n + b) else (if b > n then n else b)
  }

  /** The index range `[lo, hi)` that `xs[start:stop]` selects from a length-`n` axis. */
  function SliceBounds(n: nat, start: int, stop: int): (b: (nat, nat))
    ensures b.0 <= b.1 <= n
  {
    var lo := SliceIndex(n, start);
    var hi := SliceIndex(n, stop);
    (lo, if hi < lo then lo else hi)
  }

  /**
   * `rebuilt[top:-bottom, left:-right]` on the super-window selects exactly
   * the requested rows and columns. This needs `bottom` and `right` to be at
   * least 1, which the whole-tile margin on aligned edges guarantees.
   */
  lemma CropIsExact(r: Region)
    ensures var p := PlanFor(r);
      && SliceBounds(p.super.height, p.top, -p.bottom) == (p.top, p.top + r.height)
      && SliceBounds(p.super.width, p.left, -p.right) == (p.left, p.left + r.width)
  {
  }

  /**
   * Had an aligned edge been given a zero margin, `xs[m:-0]` would be
   * `xs[m:0]`: an empty selection whatever the window.
   */
  lemma ZeroMarginCropIsEmpty(n: nat, m: nat)
    ensures SliceBounds(n, m, -0).0 == SliceBounds(n, m, -0).1
  {
  }

  /**
   * On an aligned right edge, the last column of tiles starts exactly where the
   * window ends: one extra column of tiles is fetched and then trimmed away.
   */
  lemma AlignedEdgeFetchesSpareTile(r: Region)
    requires (r.x + r.width) % TileSize == 0
    ensures var p := PlanFor(r);
      p.right == TileSize && p.super.x + p.super.width - TileSize == r.x + r.width
  {
  }

  /** The worked example: window at (300, 300) of size 500 x 500. */
  lemma PlanExample()
    ensures PlanFor(Region(300, 300, 500, 500))
         == Plan(44, 44, 224, 224, Region(256, 256, 768, 768))
  {
  }
}
