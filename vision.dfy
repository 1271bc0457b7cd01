/**
 * The values the scanner passes between its stages, and the image library
 * (OpenCV, plus the file system behind `cv2.imread`) as a record of
 * functions. The model never looks inside these functions: every stage takes
 * the record as a parameter, so each result below holds for any library
 * that fits these signatures.
 */
module Vision {
  import opened Wrappers

  /** An integer pixel position: x grows to the right, y grows downwards. */
  datatype Point = Point(x: int, y: int)

  /** A closed boundary curve, as a sequence of its vertices. */
  type Contour = seq<Point>

  /**
   * A raster with `rows` (the shape's first entry, the height) and `cols`
   * (the width). The pixel values are opaque to the model.
   */
  datatype Image = Image(rows: nat, cols: nat, pixels: seq<int>)

  /** The interpolation flags the core passes to `cv2.resize`. */
  datatype Interpolation = Cubic | AreaAveraging

  /** The library calls the core makes, each uninterpreted. */
  datatype Cv = Cv(
    /** `cv2.imread`: the decoded file, or `None` when it cannot be read. */
    imread: string -> Option<Image>,
    /** The pixels `cv2.resize` produces for a target (width, height) and interpolation. */
    resample: (Image, nat, nat, Interpolation) -> seq<int>,
    /** The binary image of `preprocess_image` (the grey image is not used). */
    preprocess: Image -> Image,
    /** `detect_edges`: Canny followed by a morphological closing. */
    detectEdges: Image -> Image,
    /** `cv2.findContours` with external retrieval. */
    findContours: Image -> seq<Contour>,
    /** `cv2.arcLength` of a closed contour. */
    arcLength: Contour -> real,
    /** `cv2.approxPolyDP` of a closed contour with a given tolerance. */
    approxPolyDP: (Contour, real) -> Contour,
    /** `cv2.getPerspectiveTransform` from source to destination corners, row-major. */
    getPerspectiveTransform: (seq<Point>, seq<Point>) -> seq<real>,
    /** The pixels `cv2.warpPerspective` writes into a (width, height) target with Lanczos interpolation. */
    warpPerspective: (Image, seq<real>, nat, nat) -> seq<int>,
    /** The pixels of `cv2.detailEnhance` with its fixed parameters; the shape is the input's. */
    detailEnhance: Image -> seq<int>)
}
