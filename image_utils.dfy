/**
 * The size rules of the image utilities: scaling to a requested width while
 * keeping the aspect ratio, and shrinking an image for display. The pixels
 * come from the library's resampler; the model fixes only the shapes.
 */
module ImageUtils {
  import opened Vision

  /** The width `resize_with_aspect_ratio` scales to unless told otherwise. */
  const DefaultWidth: nat := 1600

  /** The widest image `display_resized` shows unscaled. */
  const DefaultMaxWidth: nat := 700

  /**
   * The height kept in proportion when an image `h` tall and `w` wide is
   * scaled to `width`: `int(h * (width / w))`, the product truncated, in
   * exact arithmetic. It is the largest `r` with `r / h` at most `width / w`.
   */
  function ResizedHeight(h: nat, w: nat, width: nat): (r: nat)
    requires w > 0
    ensures r * w <= h * width < (r + 1) * w
  {
    var r := h * width / w;
    assert h * width == r * w + h * width % w;
    assert (r + 1) * w == r * w + w;
    r
  }

  lemma MultiplyKeepsOrder(a: nat, b: nat, c: nat)
    requires a <= b
    ensures a * c <= b * c
  {
  }

  /** The floor bounds pin the height down: at most one `r` meets them. */
  lemma ResizedHeightIsUnique(h: nat, w: nat, width: nat, r: nat)
    requires w > 0 && r * w <= h * width < (r + 1) * w
    ensures r == ResizedHeight(h, w, width)
  {
    var q := ResizedHeight(h, w, width);
    if r < q {
      MultiplyKeepsOrder(r + 1, q, w);
    } else if q < r {
      MultiplyKeepsOrder(q + 1, r, w);
    }
  }

  /** Asking for the width the image already has keeps its height. */
  lemma ResizedHeightOfOwnWidth(h: nat, w: nat)
    requires w > 0
    ensures ResizedHeight(h, w, w) == h
  {
    assert (h + 1) * w == h * w + w;
    ResizedHeightIsUnique(h, w, w, h);
  }

  /** A wider target never gives a shorter image. */
  lemma ResizedHeightIsMonotonic(h: nat, w: nat, width: nat, wider: nat)
    requires 0 < w && width <= wider
    ensures ResizedHeight(h, w, width) <= ResizedHeight(h, w, wider)
  {
    var r, s := ResizedHeight(h, w, width), ResizedHeight(h, w, wider);
    MultiplyKeepsOrder(width, wider, h);
    assert h * width <= h * wider;
    if s < r {
      MultiplyKeepsOrder(s + 1, r, w);
    }
  }

  /** Scaling down never makes an image taller. */
  lemma ResizedHeightShrinks(h: nat, w: nat, width: nat)
    requires 0 < w && width <= w
    ensures ResizedHeight(h, w, width) <= h
  {
    ResizedHeightIsMonotonic(h, w, width, w);
    ResizedHeightOfOwnWidth(h, w);
  }

  /**
   * `resize_with_aspect_ratio`: cubic resampling to the requested width and
   * the proportional height. The division by the width needs it non-zero.
   */
  function ResizeWithAspectRatio(cv: Cv, image: Image, width: nat := DefaultWidth): (r: Image)
    requires image.cols > 0
    ensures r.cols == width
    ensures r.rows * image.cols <= image.rows * width < (r.rows + 1) * image.cols
    ensures r.pixels == cv.resample(image, width, r.rows, Cubic)
  {
    var h := ResizedHeight(image.rows, image.cols, width);
    Image(h, width, cv.resample(image, width, h, Cubic))
  }

  /** Resizing to the width an image already has keeps its shape. */
  lemma ResizeToOwnWidthKeepsShape(cv: Cv, image: Image)
    requires image.cols > 0
    ensures var r := ResizeWithAspectRatio(cv, image, image.cols);
            r.rows == image.rows && r.cols == image.cols
  {
    ResizedHeightOfOwnWidth(image.rows, image.cols);
  }

  /**
   * The image `display_resized` hands to the window: the image itself when
   * it is at most `maxWidth` wide, otherwise an area-averaged copy exactly
   * `maxWidth` wide and in proportion.
   */
  function DisplayedImage(cv: Cv, image: Image, maxWidth: nat := DefaultMaxWidth): (r: Image)
    ensures image.cols <= maxWidth ==> r == image
    ensures image.cols > maxWidth ==>
              r.cols == maxWidth &&
              r.rows == ResizedHeight(image.rows, image.cols, maxWidth) &&
              r.pixels == cv.resample(image, maxWidth, r.rows, AreaAveraging)
  {
    if image.cols > maxWidth then
      var h := ResizedHeight(image.rows, image.cols, maxWidth);
      Image(h, maxWidth, cv.resample(image, maxWidth, h, AreaAveraging))
    else
      image
  }

  /** What is displayed is never wider nor taller than the image. */
  lemma DisplayedImageFits(cv: Cv, image: Image, maxWidth: nat)
    ensures DisplayedImage(cv, image, maxWidth).cols <= image.cols
    ensures DisplayedImage(cv, image, maxWidth).cols <= maxWidth || DisplayedImage(cv, image, maxWidth) == image
    ensures DisplayedImage(cv, image, maxWidth).rows <= image.rows
  {
    if image.cols > maxWidth {
      ResizedHeightShrinks(image.rows, image.cols, maxWidth);
    }
  }
}
