/**
 * Slide geometry: the dimensions of a remote image at a local zoom level and
 * the zoom index the image server expects (sldc_cytomine/image.py, and the
 * older slide class in sldc_cytomine/image_adapter.py).
 */
module Slides {
  import opened Common

  /** What the server reports about an image instance (`ImageInstance`). */
  datatype ImageInstance = ImageInstance(id: int, width: nat, height: nat, zoom: int, depth: int)

  /**
   * The slide classes: `CytomineSlide` (server >= 3.2.0), `LegacyCytomineSlide`
   * (older servers) and the `CytomineSlide` of the older adapter module.
   */
  datatype SlideKind = Modern | Legacy | Adapter

  /** A slide read at `zoomLevel` (0 = full resolution, each step halves). */
  datatype Slide = Slide(kind: SlideKind, instance: ImageInstance, zoomLevel: nat)

  /** A tile of a slide as sldc describes it: offset in its parent, absolute offset, size. */
  datatype TileRef = TileRef(slide: Slide, offsetX: int, offsetY: int, absX: int, absY: int, width: nat, height: nat)

  function Pow2(n: nat): (r: nat)
    ensures r >= 1
  {
    if n == 0 then 1 else 2 * Pow2(n - 1)
  }

  /** `d` is `full` floor-divided by `p`: `d * p <= full < (d + 1) * p`. */
  ghost predicate FloorOf(d: int, full: int, p: int) {
    d * p <= full < d * p + p
  }

  /** `full // 2 ** zoomLevel`: the whole number of scaled pixels (the only one, by `ScaledIsFloor`). */
  function Scaled(full: nat, zoomLevel: nat): (d: nat)
    ensures FloorOf(d, full, Pow2(zoomLevel))
  {
    var p := Pow2(zoomLevel);
    FloorDivision(full, p);
    full / p
  }

  /** The slide's width at its zoom level (`width`): the instance width floor-divided by 2^zoomLevel. */
  function Width(s: Slide): (w: nat)
    ensures FloorOf(w, s.instance.width, Pow2(s.zoomLevel))
    ensures s.zoomLevel == 0 ==> w == s.instance.width
  {
    Scaled(s.instance.width, s.zoomLevel)
  }

  /** The slide's height at its zoom level (`height`): the instance height floor-divided by 2^zoomLevel. */
  function Height(s: Slide): (h: nat)
    ensures FloorOf(h, s.instance.height, Pow2(s.zoomLevel))
    ensures s.zoomLevel == 0 ==> h == s.instance.height
  {
    Scaled(s.instance.height, s.zoomLevel)
  }

  /** Every slide class reports three channels. */
  function Channels(s: Slide): (c: nat)
    ensures c == 3
  {
    SlideChannels
  }

  /** Zoom index in the server's convention (0 = most zoomed out). */
  function ApiZoomLevel(s: Slide): (z: int)
    ensures s.kind != Legacy ==> z + s.zoomLevel == s.instance.zoom
    ensures s.kind == Legacy ==> z + s.zoomLevel == s.instance.depth
  {
    match s.kind
    case Modern => s.instance.zoom - s.zoomLevel
    case Adapter => s.instance.zoom - s.zoomLevel
    case Legacy => s.instance.depth - s.zoomLevel
  }

  /** The `CytomineSlide` constructor: refuses a zoom level above the server's maximum. */
  function OpenSlide(instance: ImageInstance, zoomLevel: nat): (r: Result<Slide, Error>)
    ensures r.Err? <==> zoomLevel > instance.zoom
    ensures r.Err? ==> r.error == InvalidZoom
    ensures r.Ok? ==> r.value.kind == Modern && r.value.instance == instance && r.value.zoomLevel == zoomLevel
    ensures r.Ok? ==> 0 <= ApiZoomLevel(r.value) <= instance.zoom
  {
    if zoomLevel > instance.zoom then Err(InvalidZoom) else Ok(Slide(Modern, instance, zoomLevel))
  }

  /** The `LegacyCytomineSlide` constructor: no range check at all. */
  function OpenLegacySlide(instance: ImageInstance, zoomLevel: nat): (s: Slide)
    ensures s.kind == Legacy && s.instance == instance && s.zoomLevel == zoomLevel
    ensures ApiZoomLevel(s) == instance.depth - zoomLevel
  {
    Slide(Legacy, instance, zoomLevel)
  }

  /**
   * The older adapter's `CytomineSlide(id, zoom_level)`: `instance` is what
   * `ImageInstance().fetch(id)` returned; same check as `OpenSlide`.
   */
  function OpenAdapterSlide(instance: ImageInstance, zoomLevel: nat): (r: Result<Slide, Error>)
    ensures r.Err? <==> zoomLevel > instance.zoom
    ensures r.Err? ==> r.error == InvalidZoom
    ensures r.Ok? ==> r.value.kind == Adapter && r.value.instance == instance && r.value.zoomLevel == zoomLevel
    ensures r.Ok? ==> Width(r.value) == instance.width / Pow2(zoomLevel) && Height(r.value) == instance.height / Pow2(zoomLevel)
    ensures r.Ok? ==> ApiZoomLevel(r.value) == instance.zoom - zoomLevel
  {
    if zoomLevel > instance.zoom then Err(InvalidZoom) else Ok(Slide(Adapter, instance, zoomLevel))
  }

  /** `np_image` of a whole slide is never available. */
  function SlideNpImage(s: Slide): (r: Result<Raster, Error>)
    ensures r == Err(NotImplemented)
  {
    Err(NotImplemented)
  }

  /** Floor division by a product is repeated floor division. */
  lemma DivDiv(n: nat, b: nat, c: nat)
    requires b > 0 && c > 0
    ensures n / (b * c) == (n / b) / c
  {
    var q, r := n / b, n % b;
    var q2, r2 := q / c, q % c;
    DivMod(n, b);
    DivMod(q, c);
    Regroup(b, c, q2, r2, r);
    RemainderBelow(b, c, r2, r);
    DivUnique(n, b * c, q2, b * r2 + r);
  }

  /**
   * The scaled dimension is the one whole number `d` of scaled pixels with
   * `d * 2^zoomLevel <= full < (d + 1) * 2^zoomLevel`.
   */
  lemma ScaledIsFloor(full: nat, zoomLevel: nat, d: int)
    ensures FloorOf(d, full, Pow2(zoomLevel)) <==> d == Scaled(full, zoomLevel)
  {
    var p := Pow2(zoomLevel);
    if FloorOf(d, full, p) {
      assert d * p == p * d;
      DivUnique(full, p, d, full - d * p);
    }
  }

  /** Floor division of a natural number by a positive divisor is natural and brackets the dividend. */
  lemma FloorDivision(n: nat, p: int)
    requires p > 0
    ensures n / p >= 0 && FloorOf(n / p, n, p)
  {
    var q := n / p;
    DivMod(n, p);
    assert q * p == p * q;
  }

  /** Euclidean division and remainder of `n` by `d`. */
  lemma DivMod(n: int, d: int)
    requires d > 0
    ensures n == d * (n / d) + n % d && 0 <= n % d < d
  {
  }

  lemma Regroup(b: int, c: int, q2: int, r2: int, r: int)
    ensures b * (c * q2 + r2) + r == (b * c) * q2 + (b * r2 + r)
  {
    assert b * (c * q2 + r2) == b * (c * q2) + b * r2;
    assert b * (c * q2) == (b * c) * q2;
  }

  /** `b * r2 + r < b * c` when both remainders are in range. */
  lemma RemainderBelow(b: int, c: int, r2: int, r: int)
    requires b > 0 && 0 <= r2 < c && 0 <= r < b
    ensures 0 <= b * r2 + r < b * c
  {
    MulGrows(b, c - r2);
    assert b * (c - r2) == b * c - b * r2;
    if r2 > 0 {
      MulGrows(b, r2);
    }
  }

  lemma DivUnique(n: int, d: int, q: int, r: int)
    requires d > 0 && n == d * q + r && 0 <= r < d
    ensures n / d == q
  {
    var k := q - n / d;
    assert d * k == d * q - d * (n / d);
    assert d * k == n % d - r;
    MulBetween(d, k);
  }

  /** A multiple of `d` strictly between `-d` and `d` is zero. */
  lemma MulBetween(d: int, k: int)
    requires d > 0 && -d < d * k < d
    ensures k == 0
  {
    MulAtLeast(d, k);
    MulAtLeast(d, -k);
  }

  lemma MulAtLeast(d: int, k: int)
    ensures d > 0 && k > 0 ==> d * k >= d && d * -k <= -d
  {
    if d > 0 && k > 0 {
      MulGrows(d, k);
      assert d * -k == -(d * k);
    }
  }

  lemma {:induction false} MulGrows(d: nat, k: nat)
    requires k >= 1
    ensures d * k >= d
    decreases k
  {
    if k > 1 {
      MulGrows(d, k - 1);
      assert d * k == d * (k - 1) + d;
    }
  }

  /** One more zoom level halves (floor) the scaled dimension. */
  lemma ScaledHalves(full: nat, zoomLevel: nat)
    ensures Scaled(full, zoomLevel + 1) == Scaled(full, zoomLevel) / 2
  {
    assert Pow2(zoomLevel + 1) == Pow2(zoomLevel) * 2;
    DivDiv(full, Pow2(zoomLevel), 2);
  }

  /** Dimensions never grow as the zoom level increases. */
  lemma {:induction false} ScaledNonIncreasing(full: nat, z1: nat, z2: nat)
    requires z1 <= z2
    ensures Scaled(full, z2) <= Scaled(full, z1)
    decreases z2 - z1
  {
    if z1 < z2 {
      ScaledNonIncreasing(full, z1, z2 - 1);
      ScaledHalves(full, z2 - 1);
    }
  }

  /** Slide widths and heights at consecutive zoom levels (same image and kind). */
  lemma SlideDimensionsHalve(s: Slide)
    ensures Width(s.(zoomLevel := s.zoomLevel + 1)) == Width(s) / 2
    ensures Height(s.(zoomLevel := s.zoomLevel + 1)) == Height(s) / 2
  {
    ScaledHalves(s.instance.width, s.zoomLevel);
    ScaledHalves(s.instance.height, s.zoomLevel);
  }
}
