# Document scanner — a verified model of its geometric core

The scanner takes a photo of a sheet of paper and returns an upright picture of the sheet. It works in five stages:

1. Load the image and scale it to a fixed width.
2. Turn the image into an edge map.
3. Pick the outline of the sheet among the detected contours.
4. Order the sheet's four corners as top-left, top-right, bottom-right and bottom-left.
5. Warp the sheet onto a rectangle as wide and as tall as its longest edges, then save the result.

The model covers the logic the scanner wraps around its image library:
- how the corners are ordered;
- the size of the output page;
- how contours are ranked, cut to ten and filtered by area;
- the first-match search for a quadrilateral;
- the size rules for resizing and display;
- the scanner object: its two image fields, its guards, its errors, and a full scan that turns any failure into `None`.

Modules, one per source file plus two shared ones:

- `Wrappers`: `Option` and `Result`.
- `Vision`: the shared data: `Point`, `Contour`, `Image`.
  - The library is `Cv`, a record of uninterpreted functions that every stage takes as a parameter. It covers reading, resampling, preprocessing, edge detection, contour finding, perimeter, polygon approximation, the perspective matrix, the warp and detail enhancement.
  - Every result therefore holds for any library with these signatures.
  - The warp, the resampler and detail enhancement supply only pixels. The output shapes fixed by the calls are part of the model: (W, H) for the warp, or the source's shape when W or H is zero.
- `Perspective` (code/perspective_transform.py), mixed code:
  - `order_points` is a method that fills a fresh four-slot array from argmin/argmax scans. It is proved equal to the pure `Ordered`.
  - The size of the output rectangle and its corners are pure functions.
  - Corners are integers, so an edge length truncated to an integer is the integer square root of the squared length. This makes the size exact.
- `ContourDetection` (code/contour_detection.py), imperative code:
  - `filter_document_contours` is a loop that appends to a list. It is proved equal to a specification that sorts (a stable insertion sort, descending), cuts to ten and filters.
  - `find_rectangle_contour` is a loop with an early return. It is proved equal to a first-match function.
  - `cv2.contourArea` on integer points is modelled exactly: half the absolute shoelace sum.
- `ImageUtils` (code/image_utils.py), pure code: the size rules of `resize_with_aspect_ratio` and `display_resized`, in exact integer arithmetic.
- `DocumentScanning` (code/document_scanner.py), imperative code:
  - The class `DocumentScanner` has the fields `originalImage` and `processedImage`, plus `written`, the log of `cv2.imwrite` calls.
  - Each method states the value it returns or the exception it raises, and the new state of the fields it may modify.
  - The pure functions `Loaded`, `LoadedField`, `Edges`, `Candidates`, `Detected`, `Transformed` and `Scanned` say what each stage yields.

Exceptions are modelled as `ScanError` values, each named after the Python exception it stands for:
- `FileNotFoundError`;
- `ZeroDivisionError`, when the read image has no columns;
- `ValueError`, when processing before loading;
- `AttributeError`, on `None.shape` or `None.copy()` when detection or transformation runs before loading;
- `RuntimeError`, when no quadrilateral is found;
- `ValueError`, from `reshape(4, 2)` on a vertex count other than four;
- `ValueError`, when saving before a page exists.

Points of the code worth keeping in mind:
- **The difference key.** It is `np.diff(pts, axis=1)`, i.e. y − x; top-right minimises it and bottom-left maximises it.
- **Field checks.** Only `process_image` and `save_result` check the fields; there are no other order checks.
  - Detection and transformation before loading fail only because they touch `None`. The model has this as `NoImage`.
  - A stage can be rerun, and a failed scan keeps what the earlier stages stored.
- **No degenerate-geometry checks.**
  - No zero-size rectangle is rejected before the warp. `cv2.warpPerspective` then falls back to the size of the source image, and `Rectified` models that fallback.
  - Duplicate or degenerate corners are not rejected.
  - Ties go to the first point, as `np.argmin`/`np.argmax` break them.
  - Ordering can repeat one input point and drop another. `OrderedIsNotAlwaysAPermutation` exhibits this.

## Model

| member | source | states |
|---|---|---|
| Perspective.FirstArgMin | code/perspective_transform.py:10 | the index `np.argmin` gives: a position of the least key that comes before every other position of that key |
| Perspective.FirstArgMax | code/perspective_transform.py:11 | the index `np.argmax` gives: a position of the greatest key that comes before every other position of that key |
| Perspective.ArgMin | code/perspective_transform.py:15 | the scan returns the first position of the minimum |
| Perspective.ArgMax | code/perspective_transform.py:16 | the scan returns the first position of the maximum |
| Perspective.Ordered | code/perspective_transform.py:4-18 | the ordered corners are always four slots |
| Perspective.OrderedSlotsAreExtreme | code/perspective_transform.py:9-16 | every slot is an input point; TL has the least x+y and BR the greatest; TR has the least y−x and BL the greatest |
| Perspective.OrderPoints | code/perspective_transform.py:4-18 | the method fills a fresh four-slot array with exactly the ordered corners |
| Perspective.OrderedBreaksTiesByPosition | code/perspective_transform.py:10-16 | on ties each slot takes the input point that comes first among those with the extreme key |
| Perspective.OrderedIsNotAlwaysAPermutation | code/perspective_transform.py:10-16 | whenever the sums rise strictly along a, b, c, d, d has the least difference and b the first greatest, the slots are a, d, d, b: d repeats and c is lost (e.g. (0,0), (1,5), (2,6), (10,1)) |
| Perspective.OrderedIsIdempotent | code/perspective_transform.py:22 | when each extreme key is reached by one input only, ordering already ordered corners returns them unchanged |
| Perspective.ISqrt | code/perspective_transform.py:28 | the largest n with n·n ≤ d, i.e. an edge of squared length d truncated to an integer |
| Perspective.ISqrtIsMonotonic | code/perspective_transform.py:28 | a longer edge never truncates to a shorter length |
| Perspective.TargetWidth | code/perspective_transform.py:26-28 | `maxWidth` is the larger of the truncated bottom and top edge lengths, and it is the integer square root of the larger squared length |
| Perspective.TargetHeight | code/perspective_transform.py:31-33 | `maxHeight` is the larger of the truncated right and left edge lengths, and it is the integer square root of the larger squared length |
| Perspective.DestinationIsOrdered | code/perspective_transform.py:36-41 | the corners (0,0), (W,0), (W,H), (0,H) are already in TL, TR, BR, BL order for every W, H ≥ 0 |
| Perspective.DestinationHasTargetSize | code/perspective_transform.py:36-41 | measuring the destination rectangle gives back W and H |
| Perspective.EdgeLength | code/perspective_transform.py:26 | the truncated length r of an edge: r·r ≤ its squared length < (r+1)² |
| Perspective.Destination | code/perspective_transform.py:36-41 | `dst` is an axis-aligned rectangle with its top-left corner at the origin, W wide and H tall |
| Perspective.WarpedShape | code/perspective_transform.py:45-46 | the warp's output shape is the requested (W, H) when both are positive, and the source image's shape when either is zero |
| Perspective.Rectified | code/perspective_transform.py:20-51 | when both sides are positive, the page is `maxWidth` wide and `maxHeight` tall, measured on the ordered corners; when either is zero, the page has the loaded image's shape |
| Perspective.FourPointTransform | code/perspective_transform.py:20-51 | the method orders the corners, sizes the target, warps and enhances, and yields exactly `Rectified` |
| Perspective.ReorderedRectificationAgrees | code/document_scanner.py:74-82 | rectifying corners that are already ordered equals rectifying the raw corners, when the extremes are strict |
| ContourDetection.TwiceArea | code/contour_detection.py:19 | twice `cv2.contourArea`, the absolute closed shoelace sum; a point or a segment has none |
| ContourDetection.Area | code/contour_detection.py:19 | `cv2.contourArea` is never negative, and is zero for fewer than three vertices |
| ContourDetection.AreaIgnoresStartingVertex | code/contour_detection.py:15 | the area key does not change when the contour starts at its next vertex |
| ContourDetection.AreaIgnoresOrientation | code/contour_detection.py:15 | the area key does not change when the contour is traversed the other way |
| ContourDetection.RectangleArea | code/contour_detection.py:19 | an axis-aligned w×h rectangle has twice-area 2·w·h |
| ContourDetection.InsertByKey | code/contour_detection.py:15 | one insertion step of the descending sort adds exactly one contour |
| ContourDetection.SortedByKey | code/contour_detection.py:15 | `sorted(..., reverse=True)` keeps the length; its order, permutation and stability are the next row |
| ContourDetection.SortedByKeyIsStableSort | code/contour_detection.py:15 | the descending sort is ordered by key, is a permutation, and keeps the contours of each key in input order |
| ContourDetection.InsertByKeyKeepsEqualKeyOrder | code/contour_detection.py:15 | inserting a contour puts it before every contour of its key, leaving their order as it was |
| ContourDetection.TopCandidates | code/contour_detection.py:15 | the `[:10]` cut keeps exactly min(10, n) contours |
| ContourDetection.TopCandidatesFacts | code/contour_detection.py:15 | the cut keeps at most ten contours, still ordered, drawn from the input, and a prefix of each key's contours |
| ContourDetection.KeepLargeEnough | code/contour_detection.py:17-21 | the appending filter never lengthens its input, and every kept contour reaches the threshold |
| ContourDetection.KeepLargeEnoughMembers | code/contour_detection.py:17-21 | the filter keeps a contour exactly when it is in the input and its area reaches the threshold, and never adds one |
| ContourDetection.KeepLargeEnoughKeepsOrder | code/contour_detection.py:17-21 | the filter keeps the non-increasing area order |
| ContourDetection.KeepLargeEnoughOfKey | code/contour_detection.py:17-21 | the filter keeps all contours of an area that reaches the threshold, in order, and none of a smaller area |
| ContourDetection.FilteredContours | code/contour_detection.py:9-23 | the result of `filter_document_contours` has at most ten contours, each with area ≥ rows·cols·ratio |
| ContourDetection.FilteredContoursMembers | code/contour_detection.py:9-23 | at most ten contours; each has area ≥ rows·cols·ratio; a contour is kept exactly when it is among the ten largest and large enough; the result is drawn from the input |
| ContourDetection.FilteredContoursOrder | code/contour_detection.py:15-21 | largest area first, and contours of equal area in their input order |
| ContourDetection.FilterDocumentContours | code/contour_detection.py:9-23 | the appending loop yields exactly the sort-cut-filter specification |
| ContourDetection.Approximation | code/contour_detection.py:29-30 | no contract: it names the library call `approxPolyDP(c, 0.03 × arcLength(c))`, which the model leaves uninterpreted; the tolerance is stated by FirstQuadIsFirstMatch |
| ContourDetection.FirstQuad | code/contour_detection.py:25-38 | what `find_rectangle_contour` returns; a returned value always has four vertices |
| ContourDetection.FirstQuadIsNoneIffNoQuad | code/contour_detection.py:27-38 | `None` exactly when no contour's approximation has four vertices; otherwise four vertices |
| ContourDetection.FirstQuadIsFirstMatch | code/contour_detection.py:27-36 | when contour i is the first whose approximation at 0.03 × its closed perimeter has four vertices, that approximation is returned |
| ContourDetection.FindRectangleContour | code/contour_detection.py:25-38 | the loop with its early return yields exactly the first match |
| ImageUtils.ResizedHeight | code/image_utils.py:6-8 | the new height r is the truncation of h·width/w: r·w ≤ h·width < (r+1)·w |
| ImageUtils.ResizedHeightIsUnique | code/image_utils.py:8 | no other height meets those truncation bounds |
| ImageUtils.ResizedHeightOfOwnWidth | code/image_utils.py:7-8 | asking for the current width keeps the height |
| ImageUtils.ResizedHeightIsMonotonic | code/image_utils.py:7-8 | a wider target never gives a shorter image |
| ImageUtils.ResizedHeightShrinks | code/image_utils.py:14-16 | scaling down to a width ≤ w never makes the image taller |
| ImageUtils.ResizeWithAspectRatio | code/image_utils.py:4-9 | the result has exactly the requested width and the truncated proportional height, with cubic resampling |
| ImageUtils.ResizeToOwnWidthKeepsShape | code/image_utils.py:4-9 | resizing to the image's own width keeps its shape |
| ImageUtils.DisplayedImage | code/image_utils.py:11-19 | up to `max_width` wide the image is shown as is; wider images are shown exactly `max_width` wide, in proportion, area-averaged |
| ImageUtils.DisplayedImageFits | code/image_utils.py:13-19 | the shown image is never wider or taller than the image, and is at most `max_width` wide unless it is the image itself |
| DocumentScanning.Loaded | code/document_scanner.py:14-23 | `FileNotFoundError` exactly when the read yields nothing, `ZeroDivisionError` when the image has no columns, and no other failure; otherwise the image is `target_width` wide, its height r·w ≤ h·width < (r+1)·w, cubic-resampled from the read |
| DocumentScanning.LoadedField | code/document_scanner.py:16-21 | `original_image` is empty after a failed read, keeps the raw read when resizing divides by zero, and holds the returned image after a successful load |
| DocumentScanning.Edges | code/document_scanner.py:31-40 | no contract: the library's preprocessing followed by its edge detection, both uninterpreted |
| DocumentScanning.Candidates | code/document_scanner.py:51-55 | at most ten contours of the edge map, each with area ≥ 5% of the loaded image |
| DocumentScanning.Detected | code/document_scanner.py:55-68 | `RuntimeError` exactly when no candidate approximates to four vertices; otherwise the first match of `find_rectangle_contour`, with four vertices |
| DocumentScanning.Transformed | code/document_scanner.py:70-89 | `reshape` fails first when the vertex count is not four, then the missing image; it succeeds exactly when neither happens |
| DocumentScanning.Scanned | code/document_scanner.py:99-128 | within a full scan the only failures are the unreadable file, the zero width and the missing quadrilateral |
| DocumentScanning.ScannedFacts | code/document_scanner.py:99-128 | a scan fails exactly when the read fails, the image has no columns, or no candidate is a quadrilateral; on success the page is the rectification of the detected vertices, and ordering them twice does not matter when the extremes are strict |
| DocumentScanning.DocumentScanner.constructor | code/document_scanner.py:8-12 | path and target width (default 1600) are kept; both images are empty; nothing is written |
| DocumentScanning.DocumentScanner.LoadImage | code/document_scanner.py:14-23 | the read is stored first and replaced by its resized copy once it can be resized; the result is `Loaded`; no other field changes |
| DocumentScanning.DocumentScanner.ProcessImage | code/document_scanner.py:25-46 | `ValueError` without an image, otherwise the edge map of the preprocessed image; no field changes |
| DocumentScanning.DocumentScanner.DetectDocument | code/document_scanner.py:48-68 | `AttributeError` without an image, otherwise `Detected` on the loaded image's size; a result always has four vertices; no field changes |
| DocumentScanning.DocumentScanner.TransformDocument | code/document_scanner.py:70-89 | checks the vertex count, then the image; stores the page in `processed_image` and returns that same page; `original_image` is only read |
| DocumentScanning.DocumentScanner.SaveResult | code/document_scanner.py:91-97 | `ValueError` without a page, otherwise one write of the page to the given path |
| DocumentScanning.DocumentScanner.ScanDocument | code/document_scanner.py:99-131 | runs the five stages in order; returns the page or `None`; `original_image` is as loading left it; on success the page is stored and written once; on failure nothing is written and `processed_image` keeps its old value |

## Left out

- The OpenCV image operations are uninterpreted fields of `Cv` and have no contents in the model: grey conversion, CLAHE, blur, Otsu thresholding, Canny, morphological closing, `findContours`, `arcLength`, the internals of `approxPolyDP`, `getPerspectiveTransform`, `warpPerspective` and `detailEnhance`.
- The interpolation in `cv2.resize` is left out for the same reason; only the flag passed is modelled.
- Visualisation and the `show_steps` branches are side-effecting display code with no effect on any result, and the methods take no `show_steps` parameter. This covers `visualize_contours`, the drawing in `visualize_detection`, `imshow`, `waitKey`, `destroyAllWindows` and `np.hstack`.
- Console messages are left out as output only.
- `code/main.py` and `code/ocr_to_pdf.py` (OCR, PDF output, command line, directory batching) are not part of this model; they are thin wrappers over Tesseract and the file system.
- File reading and writing are abstract. `imread` is a field of `Cv`; `imwrite` is recorded in `written`, and its unchecked return value is not modelled.
- Perspective.TargetWidth: uses exact integer square roots, not `np.linalg.norm` in float32 followed by `int(...)`. Float rounding can differ by one for very large squares. The same holds for Perspective.TargetHeight.
- ImageUtils.ResizedHeight: the code computes `int(h * (width / w))` in floating point. The model uses the exact truncation, and the two can differ in rare cases.
- ContourDetection.FilteredContours: the ratio 0.05 is the exact rational 1/20, not the nearest double.
- Points are unbounded integers. int32 overflow of coordinates and of shoelace sums in OpenCV is not modelled.
- Library errors raised inside OpenCV are not modelled, e.g. `cv2.resize` to a zero height. The code does not guard against them.
- The `except Exception` in `scan_document` catches more than the model's errors, e.g. library failures. The model only has the scanner's own errors, which it turns into `None` as the code does.
- The guarantee that `sorted` leaves its input list unchanged holds trivially: sequences are values in the model.
- The numeric contents of the perspective matrix and of the warped pixels are not modelled. Only the corners passed to the library and the (W, H) target are.
