/**
 * `TileCache` (build/lib/sldc_cytomine/tile_builder.py and its copy in
 * sldc_cytomine/image_adapter.py): a memo of tile images on disk, keyed by a
 * path made of the image id, the tile's offset relative to its parent, its
 * size and whether an alpha mask was applied.
 */
module TileCaching {
  import opened Common
  import opened Naming
  import opened Slides

  /** The character after the height field and what follows it: `.png` or `_alpha.png`. */
  function Separator(alpha: bool): (c: char) {
    if alpha then '_' else '.'
  }

  function Suffix(alpha: bool): (s: string) {
    if alpha then "alpha.png" else "png"
  }

  /** The file name of `_tile_path`: `"{id}_{offset_x}_{offset_y}_{w}_{h}.png"`, or `..._{h}_alpha.png`. */
  function TileName(t: TileRef, alpha: bool): (name: string)
    ensures EndsWith(name, Field(t.height, Separator(alpha), Suffix(alpha)))
    ensures EndsWith(name, [Separator(alpha)] + Suffix(alpha))
    ensures IntToString(t.slide.instance.id) + "_" <= name
  {
    var last := Field(t.height, Separator(alpha), Suffix(alpha));
    var sw := Field(t.width, '_', last);
    var sy := Field(t.offsetY, '_', sw);
    var sx := Field(t.offsetX, '_', sy);
    var name := Field(t.slide.instance.id, '_', sx);
    assert EndsWith(last, last);
    FieldKeepsTail(t.width, '_', last, last);
    FieldKeepsTail(t.offsetY, '_', sw, last);
    FieldKeepsTail(t.offsetX, '_', sy, last);
    FieldKeepsTail(t.slide.instance.id, '_', sx, last);
    FieldTail(t.height, Separator(alpha), Suffix(alpha));
    EndsWithTrans(name, last, [Separator(alpha)] + Suffix(alpha));
    assert name == IntToString(t.slide.instance.id) + "_" + sx;
    name
  }

  /** The name is relative: it starts with the image id's sign or first digit. */
  lemma TileNameRelative(t: TileRef, alpha: bool)
    ensures |TileName(t, alpha)| > 0 && TileName(t, alpha)[0] != '/'
  {
    var rest := Field(t.offsetX, '_', Field(t.offsetY, '_', Field(t.width, '_',
                  Field(t.height, Separator(alpha), Suffix(alpha)))));
    assert TileName(t, alpha)[0] == IntToString(t.slide.instance.id)[0];
  }

  /** Without alpha, the character before `.png` is the last digit of the height. */
  lemma TileNameDigitBeforeExtension(t: TileRef)
    ensures |TileName(t, false)| >= 5 && IsDigit(TileName(t, false)[|TileName(t, false)| - 5])
  {
    DigitBeforeTail(t.height, Separator(false), Suffix(false), TileName(t, false));
  }

  /** Whatever ends with a field of a non-negative integer has a digit just before the field's separator. */
  lemma DigitBeforeTail(i: int, c: char, rest: string, p: string)
    requires i >= 0 && EndsWith(p, Field(i, c, rest))
    ensures |p| >= |rest| + 2 && IsDigit(p[|p| - |rest| - 2])
  {
    FieldLastDigit(i, c, rest);
    EndsWithAt(p, Field(i, c, rest), |rest| + 2);
  }

  /**
   * `_tile_path`: the tile's file name in the working directory. Alpha paths
   * end with `_alpha.png`; the others with a digit of the height and `.png`.
   */
  function TilePath(workingPath: string, t: TileRef, alpha: bool): (p: string)
    ensures EndsWith(p, ".png")
    ensures alpha ==> EndsWith(p, "_alpha.png")
    ensures !alpha ==> |p| >= 5 && IsDigit(p[|p| - 5])
  {
    JoinedNameShape(workingPath, t, alpha);
    Join(workingPath, TileName(t, alpha))
  }

  lemma JoinedNameShape(workingPath: string, t: TileRef, alpha: bool)
    ensures var p := Join(workingPath, TileName(t, alpha));
      && EndsWith(p, ".png")
      && (alpha ==> EndsWith(p, "_alpha.png"))
      && (!alpha ==> |p| >= 5 && IsDigit(p[|p| - 5]))
  {
    TileNameDigitBeforeExtension(t);
    PathShape(Join(workingPath, TileName(t, alpha)), TileName(t, alpha), alpha);
  }

  /** What a path inherits from the file name it ends with. */
  lemma PathShape(p: string, name: string, alpha: bool)
    requires EndsWith(p, name) && EndsWith(name, [Separator(alpha)] + Suffix(alpha))
    requires !alpha ==> |name| >= 5 && IsDigit(name[|name| - 5])
    ensures EndsWith(p, ".png")
    ensures alpha ==> EndsWith(p, "_alpha.png")
    ensures !alpha ==> |p| >= 5 && IsDigit(p[|p| - 5])
  {
    EndsWithTrans(p, name, [Separator(alpha)] + Suffix(alpha));
    TailEndsWithExtension(alpha);
    EndsWithTrans(p, [Separator(alpha)] + Suffix(alpha), ".png");
    if !alpha {
      EndsWithAt(p, name, 5);
    }
  }

  /** The separator and suffix: `.png`, or `_alpha.png` with alpha. */
  lemma TailEndsWithExtension(alpha: bool)
    ensures EndsWith([Separator(alpha)] + Suffix(alpha), ".png")
    ensures alpha ==> [Separator(alpha)] + Suffix(alpha) == "_alpha.png"
  {
    if alpha {
      assert [Separator(alpha)] + Suffix(alpha) == "_alpha.png";
      assert "_alpha.png"[6..] == ".png";
    } else {
      assert [Separator(alpha)] + Suffix(alpha) == ".png";
    }
  }

  /** `p` ends with `s`. */
  predicate EndsWith(p: string, s: string) {
    |s| <= |p| && p[|p| - |s|..] == s
  }

  lemma EndsWithAppend(a: string, b: string)
    ensures EndsWith(a + b, b)
  {
    assert (a + b)[|a|..] == b;
  }

  lemma EndsWithTrans(p: string, q: string, s: string)
    requires EndsWith(p, q) && EndsWith(q, s)
    ensures EndsWith(p, s)
  {
    assert p[|p| - |s|..] == p[|p| - |q|..][|q| - |s|..];
  }

  /** Characters counted from the end agree with those of a suffix. */
  lemma EndsWithAt(p: string, s: string, k: nat)
    requires EndsWith(p, s) && 1 <= k <= |s|
    ensures p[|p| - k] == s[|s| - k]
  {
    assert p[|p| - k] == p[|p| - |s|..][|s| - k];
  }

  /** Prefixing a field keeps whatever the rest ended with. */
  lemma FieldKeepsTail(i: int, c: char, rest: string, tail: string)
    requires EndsWith(rest, tail)
    ensures EndsWith(Field(i, c, rest), tail)
  {
    FieldTail(i, c, rest);
    EndsWithTrans(Field(i, c, rest), [c] + rest, rest);
    EndsWithTrans(Field(i, c, rest), rest, tail);
  }

  /** A field ends with its separator and the rest. */
  lemma FieldTail(i: int, c: char, rest: string)
    ensures EndsWith(Field(i, c, rest), [c] + rest)
  {
    assert Field(i, c, rest) == IntToString(i) + ([c] + rest);
    EndsWithAppend(IntToString(i), [c] + rest);
  }

  /** In a field of a non-negative integer, the character before the separator is a digit. */
  lemma FieldLastDigit(i: int, c: char, rest: string)
    requires i >= 0
    ensures |Field(i, c, rest)| >= |rest| + 2
    ensures IsDigit(Field(i, c, rest)[|Field(i, c, rest)| - |rest| - 2])
  {
    var s := IntToString(i);
    assert Field(i, c, rest)[|s| - 1] == s[|s| - 1];
  }

  /**
   * Within one working directory the path determines the image id, the
   * relative offset, the size and the alpha flag.
   */
  lemma TilePathInjective(workingPath: string, t: TileRef, a: bool, u: TileRef, b: bool)
    requires TilePath(workingPath, t, a) == TilePath(workingPath, u, b)
    ensures t.slide.instance.id == u.slide.instance.id
    ensures t.offsetX == u.offsetX && t.offsetY == u.offsetY
    ensures t.width == u.width && t.height == u.height
    ensures a == b
  {
    TileNameRelative(t, a);
    TileNameRelative(u, b);
    JoinInjective(workingPath, TileName(t, a), TileName(u, b));
    TileNameInjective(t, a, u, b);
  }

  /** The file name alone determines the image id, the relative offset, the size and the alpha flag. */
  lemma TileNameInjective(t: TileRef, a: bool, u: TileRef, b: bool)
    requires TileName(t, a) == TileName(u, b)
    ensures t.slide.instance.id == u.slide.instance.id
    ensures t.offsetX == u.offsetX && t.offsetY == u.offsetY
    ensures t.width == u.width && t.height == u.height
    ensures a == b
  {
    var sh, sh' := Field(t.height, Separator(a), Suffix(a)), Field(u.height, Separator(b), Suffix(b));
    var sw, sw' := Field(t.width, '_', sh), Field(u.width, '_', sh');
    var sy, sy' := Field(t.offsetY, '_', sw), Field(u.offsetY, '_', sw');
    var sx, sx' := Field(t.offsetX, '_', sy), Field(u.offsetX, '_', sy');
    FieldSplit(t.slide.instance.id, '_', sx, u.slide.instance.id, '_', sx');
    FieldSplit(t.offsetX, '_', sy, u.offsetX, '_', sy');
    FieldSplit(t.offsetY, '_', sw, u.offsetY, '_', sw');
    FieldSplit(t.width, '_', sh, u.width, '_', sh');
    FieldSplit(t.height, Separator(a), Suffix(a), u.height, Separator(b), Suffix(b));
  }

  /** An alpha path never coincides with a path without alpha, whatever the two tiles. */
  lemma AlphaPathsDiffer(workingPath: string, t: TileRef, u: TileRef)
    ensures TilePath(workingPath, t, true) != TilePath(workingPath, u, false)
  {
    AlphaEndingIsNotDigitEnding(TilePath(workingPath, t, true), TilePath(workingPath, u, false));
  }

  lemma AlphaEndingIsNotDigitEnding(p: string, q: string)
    requires EndsWith(p, "_alpha.png") && |q| >= 5 && IsDigit(q[|q| - 5])
    ensures p != q
  {
    EndsWithAt(p, "_alpha.png", 5);
    assert p[|p| - 5] == 'a';
  }

  /**
   * The path ignores the zoom level and the absolute offset: two tiles of the
   * same image at the same relative offset and size share their cache entry.
   */
  lemma TilePathIgnoresZoom(workingPath: string, t: TileRef, zoomLevel: nat, absX: int, absY: int, alpha: bool)
    ensures TilePath(workingPath, t.(slide := t.slide.(zoomLevel := zoomLevel), absX := absX, absY := absY), alpha)
         == TilePath(workingPath, t, alpha)
  {
  }

  /**
   * The memo: the working directory and the files the cache wrote there.
   * The tile builder it holds is only used by sldc's `tile_from_polygon`,
   * whose tile is an input here.
   */
  class TileCache {
    const workingPath: string
    var store: map<string, Raster>

    constructor (workingPath: string, store: map<string, Raster>)
      ensures this.workingPath == workingPath && this.store == store
    {
      this.workingPath := workingPath;
      this.store := store;
    }

    /**
     * `_cache_has`: a file exists at the tile's path. The answer does not
     * depend on the tile's zoom level or absolute offset, only on what its
     * path is made of.
     */
    function CacheHas(t: TileRef, alpha: bool): (has: bool)
      reads this
      ensures has <==> TilePath(workingPath, t, alpha) in store
      ensures forall zoomLevel: nat, absX, absY ::
        has <==> TilePath(workingPath, t.(slide := t.slide.(zoomLevel := zoomLevel), absX := absX, absY := absY), alpha) in store
    {
      TilePath(workingPath, t, alpha) in store
    }

    /** `_save`: write the image at the tile's path, replacing any previous file. */
    method Save(t: TileRef, img: Raster, alpha: bool)
      modifies this
      ensures store == old(store)[TilePath(workingPath, t, alpha) := img]
      ensures CacheHas(t, alpha)
    {
      store := store[TilePath(workingPath, t, alpha) := img];
    }

    /**
     * `polygon_fetch_and_cache` for an already built tile: on a miss the
     * tile's image is fetched (`image` is what `tile.np_image` gives, an
     * exception being an `Err`) and saved. The same `alpha` decides the
     * lookup, the save and the returned path.
     */
    method PolygonFetchAndCache(t: TileRef, alpha: bool, image: Result<Raster, Error>)
      returns (r: Result<string, Error>, fetched: bool)
      modifies this
      ensures fetched <==> !old(CacheHas(t, alpha))
      ensures r.Err? <==> fetched && image.Err?
      ensures r.Err? ==> r.error == image.error
      ensures r.Ok? ==> r.value == TilePath(workingPath, t, alpha) && CacheHas(t, alpha)
      ensures store == if fetched && image.Ok?
        then old(store)[TilePath(workingPath, t, alpha) := image.value]
        else old(store)
    {
      fetched := !CacheHas(t, alpha);
      if fetched {
        if image.Err? {
          return Err(image.error), fetched;
        }
        Save(t, image.value, alpha);
      }
      r := Ok(TilePath(workingPath, t, alpha));
    }

    /** `fetch_and_cache`: the same, always without alpha. */
    method FetchAndCache(t: TileRef, image: Result<Raster, Error>)
      returns (r: Result<string, Error>, fetched: bool)
      modifies this
      ensures fetched <==> !old(CacheHas(t, false))
      ensures r.Err? <==> fetched && image.Err?
      ensures r.Err? ==> r.error == image.error
      ensures r.Ok? ==> r.value == TilePath(workingPath, t, false) && CacheHas(t, false)
      ensures store == if fetched && image.Ok?
        then old(store)[TilePath(workingPath, t, false) := image.value]
        else old(store)
    {
      r, fetched := PolygonFetchAndCache(t, false, image);
    }

    /**
     * `tile_np_image`: the image stored at the path `fetch_and_cache`
     * returns; the cached one on a hit, the fetched one on a miss.
     */
    method TileNpImage(t: TileRef, image: Result<Raster, Error>)
      returns (r: Result<Raster, Error>, fetched: bool)
      modifies this
      ensures fetched <==> !old(CacheHas(t, false))
      ensures !fetched ==> r == Ok(old(store)[TilePath(workingPath, t, false)]) && store == old(store)
      ensures fetched ==> r == image
      ensures r.Ok? ==> CacheHas(t, false) && r.value == store[TilePath(workingPath, t, false)]
      ensures store == if fetched && image.Ok?
        then old(store)[TilePath(workingPath, t, false) := image.value]
        else old(store)
    {
      var path;
      path, fetched := FetchAndCache(t, image);
      if path.Err? {
        return Err(path.error), fetched;
      }
      r := Ok(store[path.value]);
    }

    /**
     * `polygon_np_image`: `tile_np_image` of the tile boxing the polygon.
     * `alpha` only decides whether that tile carries the polygon as its mask
     * (so it shapes `image`); the lookup is always under the path without alpha.
     */
    method PolygonNpImage(t: TileRef, alpha: bool, image: Result<Raster, Error>)
      returns (r: Result<Raster, Error>, fetched: bool)
      modifies this
      ensures fetched <==> !old(CacheHas(t, false))
      ensures !fetched ==> r == Ok(old(store)[TilePath(workingPath, t, false)]) && store == old(store)
      ensures fetched ==> r == image
      ensures r.Ok? ==> CacheHas(t, false) && r.value == store[TilePath(workingPath, t, false)]
      ensures store == if fetched && image.Ok?
        then old(store)[TilePath(workingPath, t, false) := image.value]
        else old(store)
    {
      r, fetched := TileNpImage(t, image);
    }

    /**
     * Caching is idempotent: once a first `fetch_and_cache` succeeded, a
     * second one on the same tile fetches nothing, writes nothing and
     * returns the same path, whatever the tile would give the second time.
     */
    method FetchAndCacheTwice(t: TileRef, image: Result<Raster, Error>, imageAgain: Result<Raster, Error>)
      returns (first: Result<string, Error>, second: Result<string, Error>, fetchedAgain: bool)
      modifies this
      ensures first.Ok? ==> !fetchedAgain && second == first
      ensures first.Ok? && old(CacheHas(t, false)) ==> store == old(store)
      ensures first.Ok? && !old(CacheHas(t, false)) ==> image.Ok? && store == old(store)[first.value := image.value]
    {
      var fetched;
      first, fetched := FetchAndCache(t, image);
      ghost var afterFirst := store;
      second, fetchedAgain := FetchAndCache(t, imageAgain);
      assert first.Ok? ==> store == afterFirst;
    }
  }
}
