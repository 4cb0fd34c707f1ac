/**
 * The tile builders (build/lib/sldc_cytomine/tile_builder.py and the older
 * copies in sldc_cytomine/image_adapter.py): they hold configuration and
 * forward it, unchanged, to the tiles they build.
 */
module Builders {
  import opened Common
  import opened Slides
  import opened Protocols

  /**
   * `CytomineGenericTileBuilder`: a constructor (`cls`, taking positional
   * and keyword arguments) and the positional arguments stored with it.
   */
  datatype GenericTileBuilder<!A, T> = GenericTileBuilder(cls: (seq<A>, map<string, A>) -> T, stored: seq<A>)

  /**
   * `build(*args, **kwargs)`: the stored arguments first, then the call's; a
   * builder with nothing stored calls `cls` with the call's arguments alone,
   * and a call without arguments passes exactly the stored ones.
   */
  function GenericBuild<A, T>(b: GenericTileBuilder<A, T>, args: seq<A>, kwargs: map<string, A>): (t: T)
    ensures b.stored == [] ==> t == b.cls(args, kwargs)
    ensures args == [] ==> t == b.cls(b.stored, kwargs)
  {
    assert [] + args == args;
    assert b.stored + [] == b.stored;
    b.cls(b.stored + args, kwargs)
  }

  /**
   * Storing arguments in the builder is the same as passing them first at
   * every call, and a builder with nothing stored calls `cls` directly.
   */
  lemma StoredArgumentsComeFirst<A, T>(cls: (seq<A>, map<string, A>) -> T, stored: seq<A>, more: seq<A>,
                                       args: seq<A>, kwargs: map<string, A>)
    ensures GenericBuild(GenericTileBuilder(cls, stored + more), args, kwargs)
         == GenericBuild(GenericTileBuilder(cls, stored), more + args, kwargs)
    ensures GenericBuild(GenericTileBuilder(cls, []), args, kwargs) == cls(args, kwargs)
  {
    assert (stored + more) + args == stored + (more + args);
    assert [] + args == args;
  }

  /**
   * A `CytomineTile` as built: its working path, parent image, offset, size,
   * sub-tile protocol, polygon mask and number of download jobs.
   */
  datatype CytomineTile<M> = CytomineTile(workingPath: string, image: Slide, offsetX: int, offsetY: int,
                                          width: nat, height: nat, tileClass: Protocol,
                                          polygonMask: Option<M>, nJobs: int)

  /** `CytomineTileBuilder`'s configuration. */
  datatype TileBuilder = TileBuilder(workingPath: string, tileClass: Protocol, nJobs: int)

  /**
   * The constructor of build/lib/sldc_cytomine/tile_builder.py; an argument
   * left out (`None`) takes its default: the IIP protocol and 0 jobs.
   */
  function NewTileBuilder(workingPath: string, tileClass: Option<Protocol>, nJobs: Option<int>): (b: TileBuilder)
    ensures b.workingPath == workingPath
    ensures tileClass.None? ==> b.tileClass == Iip
    ensures tileClass.Some? ==> b.tileClass == tileClass.value
    ensures nJobs.None? ==> b.nJobs == 0
    ensures nJobs.Some? ==> b.nJobs == nJobs.value
  {
    TileBuilder(workingPath,
                match tileClass case None => Iip case Some(c) => c,
                match nJobs case None => 0 case Some(n) => n)
  }

  /** `build`: the configuration goes to the tile unchanged, next to the call's arguments. */
  function Build<M>(b: TileBuilder, image: Slide, offsetX: int, offsetY: int, width: nat, height: nat,
                    polygonMask: Option<M>): (t: CytomineTile<M>)
    ensures t.workingPath == b.workingPath && t.tileClass == b.tileClass && t.nJobs == b.nJobs
    ensures t.image == image && t.offsetX == offsetX && t.offsetY == offsetY
    ensures t.width == width && t.height == height && t.polygonMask == polygonMask
  {
    CytomineTile(b.workingPath, image, offsetX, offsetY, width, height, b.tileClass, polygonMask, b.nJobs)
  }

  /** The older `CytomineTileBuilder` of sldc_cytomine/image_adapter.py: a working path and a job count (default 0). */
  datatype AdapterTileBuilder = AdapterTileBuilder(workingPath: string, nJobs: int)

  function NewAdapterTileBuilder(workingPath: string, nJobs: Option<int>): (b: AdapterTileBuilder)
    ensures b.workingPath == workingPath
    ensures nJobs.None? ==> b.nJobs == 0
    ensures nJobs.Some? ==> b.nJobs == nJobs.value
  {
    AdapterTileBuilder(workingPath, match nJobs case None => 0 case Some(n) => n)
  }

  /** Its `build`: the older tile always rebuilds itself from the older IIP tiles. */
  function AdapterBuild<M>(b: AdapterTileBuilder, image: Slide, offsetX: int, offsetY: int, width: nat, height: nat,
                           polygonMask: Option<M>): (t: CytomineTile<M>)
    ensures t.workingPath == b.workingPath && t.tileClass == AdapterIip && t.nJobs == b.nJobs
    ensures t.image == image && t.offsetX == offsetX && t.offsetY == offsetY
    ensures t.width == width && t.height == height && t.polygonMask == polygonMask
  {
    CytomineTile(b.workingPath, image, offsetX, offsetY, width, height, AdapterIip, polygonMask, b.nJobs)
  }
}
