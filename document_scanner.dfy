/**
 * The scanner object: it holds the loaded image and the scanned page, each
 * stage reads or updates those fields, and the whole scan chains the stages
 * and turns any failure into `None`. The pure functions here say what each
 * stage yields; the class's methods are proved to yield exactly that.
 */
module DocumentScanning {
  import opened Wrappers
  import opened Vision
  import opened Perspective
  import opened ContourDetection
  import opened ImageUtils

  /** The exceptions the stages raise, by the Python exception behind each. */
  datatype ScanError =
    | FileNotFound(path: string)   // `FileNotFoundError`: the file could not be read
    | ZeroWidth                    // `ZeroDivisionError`: `width / w` with `w == 0`
    | NotLoaded                    // `ValueError`: processing before loading
    | NoImage                      // `AttributeError`: `.shape` or `.copy()` of `None`
    | NoQuadrilateral              // `RuntimeError`: no four-vertex candidate
    | NotFourVertices              // `ValueError`: `reshape(4, 2)` of another vertex count
    | NothingToSave                // `ValueError`: saving before a page exists

  const DefaultTargetWidth: nat := 1600
  const DefaultOutputPath: string := "scanned_result.png"

  // ---- What each stage yields ----

  /**
   * What `load_image` returns or raises: it fails exactly when the file
   * cannot be read or has no columns, and otherwise yields an image
   * `width` wide, in proportion to the file's.
   */
  function Loaded(cv: Cv, path: string, width: nat): (r: Result<Image, ScanError>)
    ensures r == Err(FileNotFound(path)) <==> cv.imread(path).None?
    ensures cv.imread(path).Some? && cv.imread(path).value.cols == 0 ==> r == Err(ZeroWidth)
    ensures r.Err? <==> cv.imread(path).None? || cv.imread(path).value.cols == 0
    ensures r.Ok? ==>
              var raw := cv.imread(path).value;
              r.value.cols == width &&
              r.value.rows * raw.cols <= raw.rows * width < (r.value.rows + 1) * raw.cols &&
              r.value.pixels == cv.resample(raw, width, r.value.rows, Cubic)
  {
    match cv.imread(path)
    case None => Err(FileNotFound(path))
    case Some(raw) => if raw.cols == 0 then Err(ZeroWidth) else Ok(ResizeWithAspectRatio(cv, raw, width))
  }

  /**
   * `original_image` after `load_image`: the raw read, replaced by its
   * resized copy once it can be resized, so it holds the returned image on
   * success and stays empty when the file cannot be read.
   */
  function LoadedField(cv: Cv, path: string, width: nat): (f: Option<Image>)
    ensures cv.imread(path).None? ==> f.None?
    ensures cv.imread(path).Some? && cv.imread(path).value.cols == 0 ==> f == cv.imread(path)
    ensures Loaded(cv, path, width).Ok? ==> f == Some(Loaded(cv, path, width).value)
  {
    match cv.imread(path)
    case None => None
    case Some(raw) => if raw.cols == 0 then Some(raw) else Some(ResizeWithAspectRatio(cv, raw, width))
  }

  /** The edge map of `process_image`: the binary image of the preprocessing, edge-detected. */
  function Edges(cv: Cv, image: Image): Image {
    cv.detectEdges(cv.preprocess(image))
  }

  /** The candidates `detect_document` searches: the large ones among the contours of the edge map. */
  function Candidates(cv: Cv, image: Image, edged: Image): (cs: seq<Contour>)
    ensures |cs| <= MaxCandidates
    ensures forall i :: 0 <= i < |cs| ==> Area(cs[i]) >= MinArea(image.rows, image.cols, DefaultMinAreaRatio)
  {
    FilteredContours(cv.findContours(edged), image.rows, image.cols, DefaultMinAreaRatio)
  }

  /** What `detect_document` returns or raises once an image is loaded. */
  function Detected(cv: Cv, image: Image, edged: Image): (r: Result<Contour, ScanError>)
    ensures r.Ok? ==> |r.value| == 4 && FirstQuad(cv, Candidates(cv, image, edged)) == Some(r.value)
    ensures r.Err? ==> r.error == NoQuadrilateral
    ensures r.Err? <==> forall i :: 0 <= i < |Candidates(cv, image, edged)| ==> |Approximation(cv, Candidates(cv, image, edged)[i])| != 4
  {
    FirstQuadIsNoneIffNoQuad(cv, Candidates(cv, image, edged));
    match FirstQuad(cv, Candidates(cv, image, edged))
    case None => Err(NoQuadrilateral)
    case Some(v) => Ok(v)
  }

  /**
   * What `transform_document` returns or raises, given `original_image`:
   * the vertex count is checked first, the loaded image second.
   */
  function Transformed(cv: Cv, original: Option<Image>, vertices: Contour): (r: Result<Image, ScanError>)
    ensures r.Ok? <==> |vertices| == 4 && original.Some?
    ensures |vertices| != 4 ==> r == Err(NotFourVertices)
    ensures |vertices| == 4 && original.None? ==> r == Err(NoImage)
  {
    if |vertices| != 4 then Err(NotFourVertices)
    else if original.None? then Err(NoImage)
    else Ok(Rectified(cv, original.value, Ordered(vertices)))
  }

  /**
   * What `scan_document` computes before it turns any failure into `None`.
   * Within a scan the stages run in order, so only reading, the zero width
   * and the missing quadrilateral can make it fail.
   */
  function Scanned(cv: Cv, path: string, width: nat): (r: Result<Image, ScanError>)
    ensures r.Err? ==> r.error.FileNotFound? || r.error == ZeroWidth || r.error == NoQuadrilateral
  {
    match Loaded(cv, path, width)
    case Err(e) => Err(e)
    case Ok(image) =>
      match Detected(cv, image, Edges(cv, image))
      case Err(e) => Err(e)
      case Ok(vertices) => Transformed(cv, Some(image), vertices)
  }

  /**
   * A scan fails exactly when the file cannot be read, has no columns, or
   * none of the candidates of its edge map approximates to a quadrilateral.
   * On success the page is the rectification of the detected quadrilateral,
   * and when the corners have strict extremes it does not matter that they
   * are ordered twice on the way.
   */
  lemma ScannedFacts(cv: Cv, path: string, width: nat)
    ensures Scanned(cv, path, width).Err? <==>
              cv.imread(path).None? || cv.imread(path).value.cols == 0 ||
              var image := ResizeWithAspectRatio(cv, cv.imread(path).value, width);
              forall i :: 0 <= i < |Candidates(cv, image, Edges(cv, image))| ==>
                |Approximation(cv, Candidates(cv, image, Edges(cv, image))[i])| != 4
    ensures Scanned(cv, path, width).Ok? ==>
              var image := Loaded(cv, path, width).value;
              var vertices := FirstQuad(cv, Candidates(cv, image, Edges(cv, image))).value;
              image.cols == width && |vertices| == 4 &&
              Scanned(cv, path, width).value == Rectified(cv, image, Ordered(vertices)) &&
              (StrictExtremes(vertices) ==> Scanned(cv, path, width).value == Rectified(cv, image, vertices))
  {
    if Scanned(cv, path, width).Ok? {
      var image := Loaded(cv, path, width).value;
      var vertices := FirstQuad(cv, Candidates(cv, image, Edges(cv, image))).value;
      if StrictExtremes(vertices) {
        ReorderedRectificationAgrees(cv, image, vertices);
      }
    }
  }

  // ---- The scanner ----

  class DocumentScanner {
    const imagePath: string
    const targetWidth: nat
    /** `original_image`: the image the stages work on, once loaded. */
    var originalImage: Option<Image>
    /** `processed_image`: the scanned page, once transformed. */
    var processedImage: Option<Image>
    /** The (path, image) pairs handed to `cv2.imwrite`, in order. */
    var written: seq<(string, Image)>

    /** `__init__`: nothing loaded, nothing scanned, nothing written. */
    constructor(imagePath: string, targetWidth: nat := DefaultTargetWidth)
      ensures this.imagePath == imagePath && this.targetWidth == targetWidth
      ensures originalImage.None? && processedImage.None? && written == []
    {
      this.imagePath := imagePath;
      this.targetWidth := targetWidth;
      originalImage := None;
      processedImage := None;
      written := [];
    }

    /** `load_image`: read the file into `original_image`, then resize it there. */
    method LoadImage(cv: Cv) returns (r: Result<Image, ScanError>)
      modifies this`originalImage
      ensures originalImage == LoadedField(cv, imagePath, targetWidth)
      ensures r == Loaded(cv, imagePath, targetWidth)
    {
      originalImage := cv.imread(imagePath);
      if originalImage.None? {
        return Err(FileNotFound(imagePath));
      }
      if originalImage.value.cols == 0 {
        return Err(ZeroWidth);
      }
      originalImage := Some(ResizeWithAspectRatio(cv, originalImage.value, targetWidth));
      return Ok(originalImage.value);
    }

    /** `process_image`: the edge map of the loaded image; it changes no field. */
    method ProcessImage(cv: Cv) returns (r: Result<Image, ScanError>)
      ensures originalImage.None? ==> r == Err(NotLoaded)
      ensures originalImage.Some? ==> r == Ok(Edges(cv, originalImage.value))
    {
      if originalImage.None? {
        return Err(NotLoaded);
      }
      var edged := Edges(cv, originalImage.value);
      return Ok(edged);
    }

    /**
     * `detect_document`: filter the contours of the edge map against the
     * loaded image's size and take the first quadrilateral; it changes no
     * field. Without a loaded image the size lookup fails.
     */
    method DetectDocument(cv: Cv, edged: Image) returns (r: Result<Contour, ScanError>)
      ensures originalImage.None? ==> r == Err(NoImage)
      ensures originalImage.Some? ==> r == Detected(cv, originalImage.value, edged)
      ensures r.Ok? ==> |r.value| == 4
    {
      var contours := cv.findContours(edged);
      if originalImage.None? {
        return Err(NoImage);
      }
      var image := originalImage.value;
      var valid := FilterDocumentContours(contours, image.rows, image.cols);
      var vertices := FindRectangleContour(cv, valid);
      if vertices.None? {
        return Err(NoQuadrilateral);
      }
      return Ok(vertices.value);
    }

    /**
     * `transform_document`: order the four vertices (as `visualize_detection`
     * does), rectify the loaded image onto them and keep the page in
     * `processed_image`. `original_image` is only read.
     */
    method TransformDocument(cv: Cv, vertices: Contour) returns (r: Result<Image, ScanError>)
      modifies this`processedImage
      ensures r == Transformed(cv, originalImage, vertices)
      ensures processedImage == if r.Ok? then Some(r.value) else old(processedImage)
    {
      if |vertices| != 4 {
        return Err(NotFourVertices);
      }
      var ordered := OrderPoints(vertices);
      if originalImage.None? {
        return Err(NoImage);
      }
      var result := FourPointTransform(cv, originalImage.value, ordered[..]);
      processedImage := Some(result);
      return Ok(result);
    }

    /** `save_result`: hand the page to `cv2.imwrite`, whose outcome is not checked. */
    method SaveResult(outputPath: string := DefaultOutputPath) returns (r: Result<(), ScanError>)
      modifies this`written
      ensures processedImage.None? ==> r == Err(NothingToSave) && written == old(written)
      ensures processedImage.Some? ==> r == Ok(()) && written == old(written) + [(outputPath, processedImage.value)]
    {
      if processedImage.None? {
        return Err(NothingToSave);
      }
      written := written + [(outputPath, processedImage.value)];
      return Ok(());
    }

    /**
     * `scan_document`: load, process, detect, transform and save, in that
     * order; any failure makes the result `None`, and the fields keep what
     * the stages before it stored.
     */
    method ScanDocument(cv: Cv, outputPath: string := DefaultOutputPath) returns (result: Option<Image>)
      modifies this`originalImage, this`processedImage, this`written
      ensures result == if Scanned(cv, imagePath, targetWidth).Ok? then Some(Scanned(cv, imagePath, targetWidth).value) else None
      ensures originalImage == LoadedField(cv, imagePath, targetWidth)
      ensures processedImage == if result.Some? then result else old(processedImage)
      ensures written == old(written) + if result.Some? then [(outputPath, result.value)] else []
    {
      var loaded := LoadImage(cv);
      if loaded.Err? {
        return None;
      }
      var edged := ProcessImage(cv);
      if edged.Err? {
        return None;
      }
      var vertices := DetectDocument(cv, edged.value);
      if vertices.Err? {
        return None;
      }
      var page := TransformDocument(cv, vertices.value);
      if page.Err? {
        return None;
      }
      var saved := SaveResult(outputPath);
      if saved.Err? {
        return None;
      }
      return Some(page.value);
    }
  }
}
