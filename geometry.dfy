/** Fitting the uploaded image into the editor's container and mapping pointer
    events into canvas space (the image `onload` effect and the mouse handlers
    of the Canvas component). Sizes and coordinates are reals: the browser's
    double rounding is abstracted away. */
module Geometry {

  /** A point in some 2-D pixel space. */
  datatype Point = Point(x: real, y: real)

  /** The part of a DOM bounding rectangle the handlers use. */
  datatype Rect = Rect(left: real, top: real)

  /** The fitted working-canvas size and the factor from image to canvas pixels. */
  datatype Fit = Fit(width: real, height: real, scale: real)

  /** Squared euclidean distance: the handlers compare distances, and squares
      compare the same way on non-negative values, so no square root is needed. */
  function DistSq(a: Point, b: Point): real
  {
    (b.x - a.x) * (b.x - a.x) + (b.y - a.y) * (b.y - a.y)
  }

  /** The image is fitted to the container's width exactly when it is relatively
      wider than the container: imgW/imgH > boxW/boxH, cross-multiplied. */
  predicate WidthBound(imgW: real, imgH: real, boxW: real, boxH: real)
  {
    imgW * boxH > boxW * imgH
  }

  /** Aspect-preserving fit of an imgW x imgH image into a boxW x boxH container:
      the wider-than-container case pins the width, every other case (ties
      included) pins the height; scale is the fitted width over the image width. */
  function FitImage(imgW: real, imgH: real, boxW: real, boxH: real): (f: Fit)
    requires imgW > 0.0 && imgH > 0.0 && boxW > 0.0 && boxH > 0.0
    ensures WidthBound(imgW, imgH, boxW, boxH) ==> f.width == boxW
    ensures !WidthBound(imgW, imgH, boxW, boxH) ==> f.height == boxH
    ensures f.width * imgH == f.height * imgW
    ensures 0.0 < f.width <= boxW && 0.0 < f.height <= boxH
    ensures f.scale * imgW == f.width
  {
    var imgAspect := imgW / imgH;
    var boxAspect := boxW / boxH;
    if imgAspect > boxAspect then
      AspectOrder(imgW, imgH, boxW, boxH);
      var h := boxW / imgAspect;
      assert h == boxW * imgH / imgW;
      assert h * imgW == boxW * imgH;
      Fit(boxW, h, boxW / imgW)
    else
      AspectOrder(imgW, imgH, boxW, boxH);
      var w := boxH * imgAspect;
      assert w * imgH == boxH * imgW;
      Fit(w, boxH, w / imgW)
  }

  /** Comparing the two aspect ratios is the same as comparing the cross products. */
  lemma AspectOrder(imgW: real, imgH: real, boxW: real, boxH: real)
    requires imgW > 0.0 && imgH > 0.0 && boxW > 0.0 && boxH > 0.0
    ensures (imgW / imgH > boxW / boxH) <==> WidthBound(imgW, imgH, boxW, boxH)
  {
    var a, b := imgW / imgH, boxW / boxH;
    assert a * imgH == imgW;
    assert b * boxH == boxW;
    assert imgW * boxH == a * (imgH * boxH);
    assert boxW * imgH == b * (imgH * boxH);
  }

  /** The fit is the largest rectangle of the image's shape that fits in the
      container: any other such rectangle is no wider and no taller. */
  lemma FitIsLargest(imgW: real, imgH: real, boxW: real, boxH: real, w: real, h: real)
    requires imgW > 0.0 && imgH > 0.0 && boxW > 0.0 && boxH > 0.0
    requires 0.0 < w <= boxW && 0.0 < h <= boxH && w * imgH == h * imgW
    ensures w <= FitImage(imgW, imgH, boxW, boxH).width
    ensures h <= FitImage(imgW, imgH, boxW, boxH).height
  {
    var f := FitImage(imgW, imgH, boxW, boxH);
    if WidthBound(imgW, imgH, boxW, boxH) {
      // width pinned: w <= boxW == f.width, and heights follow widths
      ScaleMonotone(w, f.width, imgH);
      Cancel(h, f.height, imgW);
    } else {
      ScaleMonotone(h, f.height, imgW);
      Cancel(w, f.width, imgH);
    }
  }

  lemma ScaleMonotone(a: real, b: real, s: real)
    requires a <= b && s >= 0.0
    ensures a * s <= b * s
  {
    assert (b - a) * s >= 0.0;
  }

  /** Cancelling a positive factor keeps the order. */
  lemma Cancel(a: real, b: real, k: real)
    requires k > 0.0 && a * k <= b * k
    ensures a <= b
  {
    assert (b - a) * k >= 0.0;
  }

  /** Assigning a positive real to `canvas.width` (or passing it as a size to
      `createImageData`) keeps its integer part. */
  function PixelSize(v: real): (n: nat)
    requires v >= 0.0
    ensures n as real <= v < n as real + 1.0
  {
    v.Floor
  }

  /** Client coordinates to canvas coordinates: the canvas's bounding-box origin
      is subtracted and nothing is scaled, on mouse-down and on mouse-move alike. */
  function ToCanvasSpace(clientX: real, clientY: real, rect: Rect): (p: Point)
    ensures Point(p.x + rect.left, p.y + rect.top) == Point(clientX, clientY)
  {
    Point(clientX - rect.left, clientY - rect.top)
  }

  /** Pointer mapping is a pure translation: it preserves every distance. */
  lemma TranslationIsRigid(a: Point, b: Point, rect: Rect)
    ensures DistSq(ToCanvasSpace(a.x, a.y, rect), ToCanvasSpace(b.x, b.y, rect)) == DistSq(a, b)
  {
    var p, q := ToCanvasSpace(a.x, a.y, rect), ToCanvasSpace(b.x, b.y, rect);
    assert q.x - p.x == b.x - a.x;
    assert q.y - p.y == b.y - a.y;
  }

  /** A 1600 x 900 photo in an 800 x 800 container is width-bound: 800 x 450 at scale 1/2. */
  lemma FitLandscapeInSquare()
    ensures FitImage(1600.0, 900.0, 800.0, 800.0) == Fit(800.0, 450.0, 0.5)
  {
    var f := FitImage(1600.0, 900.0, 800.0, 800.0);
    assert WidthBound(1600.0, 900.0, 800.0, 800.0);
    assert f.width == 800.0;
    assert f.height * 1600.0 == 800.0 * 900.0;
    assert f.scale * 1600.0 == 800.0;
  }

  /** Equal aspect ratios are a tie, and a tie is height-bound: the image fills
      the whole container at scale boxW / imgW. */
  lemma FitTieIsHeightBound(imgW: real, imgH: real, boxW: real, boxH: real)
    requires imgW > 0.0 && imgH > 0.0 && boxW > 0.0 && boxH > 0.0
    requires imgW * boxH == boxW * imgH
    ensures FitImage(imgW, imgH, boxW, boxH) == Fit(boxW, boxH, boxW / imgW)
  {
    var f := FitImage(imgW, imgH, boxW, boxH);
    assert !WidthBound(imgW, imgH, boxW, boxH);
    assert f.height == boxH;
    assert f.width * imgH == boxW * imgH;
    Cancel(f.width, boxW, imgH);
    Cancel(boxW, f.width, imgH);
    assert f.scale * imgW == boxW;
  }
}
