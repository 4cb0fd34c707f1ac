/**
 * Values shared by every part of the tile-reconstruction model: 8-bit samples,
 * decoded rasters, the failure-compatible wrappers and the exceptions the
 * Python code raises.
 */
module Common {

  /** One 8-bit sample (numpy `uint8`). */
  newtype byte = x: int | 0 <= x < 256

  /** Every slide class reports three channels (`channels`), and the mosaic buffer has as many. */
  const SlideChannels: nat := 3

  datatype Option<+T> = None | Some(value: T)

  datatype Result<+T, +E> = Ok(value: T) | Err(error: E)

  /** The exceptions raised (and not swallowed) by the reconstruction layer. */
  datatype Error =
    | TileExtraction     // sldc's TileExtractionException
    | TypeMismatch       // TypeError: a protocol used with the wrong kind of slide
    | InvalidZoom        // ValueError: a zoom level above the server's maximum
    | NotImplemented     // NotImplementedError: whole-slide np_image
    | ShapeMismatch      // numpy ValueError: slice assignment of a differently shaped tile
    | MissingAttribute   // AttributeError: a slide class without the attribute a protocol reads

  /**
   * A decoded image as a numpy array of shape (height, width, channels):
   * `px[i][j][k]` is sample `k` of the pixel in row `i`, column `j`.
   */
  datatype Raster = Raster(height: nat, width: nat, channels: nat, px: seq<seq<seq<byte>>>)
  {
    /** The nested sequences have exactly the declared shape. */
    predicate Valid() {
      && |px| == height
      && (forall i :: 0 <= i < height ==> |px[i]| == width)
      && (forall i, j :: 0 <= i < height && 0 <= j < width ==> |px[i][j]| == channels)
    }
  }
}
