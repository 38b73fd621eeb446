/** The Canvas editor component: its state (the 2D context, the canvas size,
    the selection layer, the brush and the pointer-tracking fields) and the
    handlers that change it: image load, draw, mouse down / move / up / leave,
    brush and mode changes, and clear. */
module EditorCanvas {
  import opened Optional
  import opened Geometry
  import opened Stroke
  import opened Compositing

  /** The selection layer: the alpha channel of the selection ImageData, one
      entry per pixel, indexed [row, column]. An ImageData is never written
      after it is created, and neither is a Layer. */
  type Layer = array2<real>

  /** What a handler hands to the onSelectionChange callback. A handler may call
      it several times; the parent's state updates are batched, so the last call
      is the one that counts, and that is the one recorded here. */
  datatype Notice = Silent | Reported(selection: Option<Layer>)

  /** Range of the brush-size slider, and its initial value. */
  const MinBrushSize: int := 5
  const MaxBrushSize: int := 100
  const DefaultBrushSize: int := 20

  /** Size of a canvas element whose width and height were never assigned. */
  const DefaultWidth: nat := 300
  const DefaultHeight: nat := 150

  ghost predicate AllAlpha(l: Layer)
    reads l
  {
    forall r, c :: 0 <= r < l.Length0 && 0 <= c < l.Length1 ==> IsAlpha(l[r, c])
  }

  ghost predicate AllClear(l: Layer)
    reads l
  {
    forall r, c :: 0 <= r < l.Length0 && 0 <= c < l.Length1 ==> l[r, c] == 0.0
  }

  /** `after` is `before` with one brush stamp at `center`. */
  ghost predicate IsStampOf(before: Layer, after: Layer, center: Point, brushSize: int, mode: Mode)
    reads before, after
  {
    && after.Length0 == before.Length0 && after.Length1 == before.Length1
    && AllAlpha(before)
    && forall r, c :: 0 <= r < after.Length0 && 0 <= c < after.Length1 ==>
         after[r, c] == PixelAfterStamp(before[r, c], r, c, center, brushSize as real, mode)
  }

  /** The body of draw: copy the layer into a scratch canvas, fill one disk
      with the tint under the mode's composite operation, read the pixels back
      into a new ImageData. The source layer itself is not written. */
  method Stamp(src: Layer, center: Point, brushSize: int, mode: Mode) returns (dst: Layer)
    requires AllAlpha(src)
    ensures fresh(dst) && IsStampOf(src, dst, center, brushSize, mode) && AllAlpha(dst)
  {
    dst := new real[src.Length0, src.Length1](
      (r, c) requires 0 <= r < src.Length0 && 0 <= c < src.Length1 && IsAlpha(src[r, c]) reads src =>
        PixelAfterStamp(src[r, c], r, c, center, brushSize as real, mode));
  }

  /** createImageData(width, height): a new layer, fully transparent. */
  method ClearLayer(height: nat, width: nat) returns (l: Layer)
    ensures fresh(l) && l.Length0 == height && l.Length1 == width
    ensures AllClear(l) && AllAlpha(l)
  {
    l := new real[height, width]((r, c) => 0.0);
  }

  /** Stamping once more extends a run of stamps by one point, pixel by pixel. */
  lemma FoldExtends(origin: Layer, before: Layer, after: Layer, run: seq<Point>, q: Point, brushSize: int, mode: Mode)
    requires AllAlpha(origin)
    requires before.Length0 == origin.Length0 && before.Length1 == origin.Length1
    requires forall r, c :: 0 <= r < before.Length0 && 0 <= c < before.Length1 ==>
      before[r, c] == FoldStamps(origin[r, c], r, c, run, brushSize as real, mode)
    requires IsStampOf(before, after, q, brushSize, mode)
    ensures forall r, c :: 0 <= r < after.Length0 && 0 <= c < after.Length1 ==>
      after[r, c] == FoldStamps(origin[r, c], r, c, run + [q], brushSize as real, mode)
  {
    assert (run + [q])[..|run|] == run;
  }

  /** A layer made by a whole run of Add stamps is at least as opaque as the
      tint wherever any stamp of the run covers it. */
  lemma RunCovers(origin: Layer, after: Layer, run: seq<Point>, brushSize: int)
    requires AllAlpha(origin)
    requires after.Length0 == origin.Length0 && after.Length1 == origin.Length1
    requires forall r, c :: 0 <= r < after.Length0 && 0 <= c < after.Length1 ==>
      after[r, c] == FoldStamps(origin[r, c], r, c, run, brushSize as real, Add)
    ensures forall r, c, k ::
      0 <= r < after.Length0 && 0 <= c < after.Length1 && 0 <= k < |run| && InDisk(r, c, run[k], brushSize as real)
      ==> after[r, c] >= TintAlpha
  {
    forall r, c, k | 0 <= r < after.Length0 && 0 <= c < after.Length1 && 0 <= k < |run|
      && InDisk(r, c, run[k], brushSize as real)
      ensures after[r, c] >= TintAlpha
    {
      FoldCovers(origin[r, c], r, c, run, brushSize as real, k);
    }
  }

  class Canvas {
    /** Whether the 2D context was obtained (the `ctx` state). */
    var hasContext: bool
    /** canvas.width and canvas.height, in pixels. */
    var width: nat
    var height: nat
    /** The `scale` state: fitted width over image width. */
    var scale: real
    /** The `selectionLayer` state; null until an image has loaded. */
    var layer: array2?<real>
    var isDrawing: bool
    var lastPos: Point
    var brushSize: int
    var mode: Mode

    ghost predicate Valid()
      reads this, layer
    {
      && MinBrushSize <= brushSize <= MaxBrushSize
      && (layer != null ==> AllAlpha(layer))
      && (layer != null && width > 0 && height > 0 ==> layer.Length0 == height && layer.Length1 == width)
    }

    /** The layers a handler may have captured from the current render. */
    ghost predicate Fits(l: array2?<real>)
      reads this, l
    {
      l != null ==> AllAlpha(l) && (width > 0 && height > 0 ==> l.Length0 == height && l.Length1 == width)
    }

    /** draw would stamp: there is a context and a layer and the canvas has pixels. */
    predicate CanDraw()
      reads this
    {
      hasContext && layer != null && width > 0 && height > 0
    }

    /** draw would throw: reading back a zero-sized area raises IndexSizeError.
        With a context and a layer, draw either throws or stamps, never both. */
    predicate DrawThrows(): (b: bool)
      reads this
      ensures b ==> !CanDraw()
      ensures hasContext && layer != null ==> (b <==> !CanDraw())
    {
      hasContext && layer != null && (width == 0 || height == 0)
    }

    /** Mounting the component. The context effect runs once, at mount, and
        obtains a context only if the canvas element is rendered then, which it
        is only when an image URL is already set. */
    constructor (canvasMounted: bool)
      ensures Valid()
      ensures hasContext == canvasMounted && layer == null && !isDrawing
      ensures width == DefaultWidth && height == DefaultHeight && scale == 1.0
      ensures lastPos == Point(0.0, 0.0) && brushSize == DefaultBrushSize && mode == Add
    {
      hasContext := canvasMounted;
      width, height := DefaultWidth, DefaultHeight;
      scale := 1.0;
      layer := null;
      isDrawing := false;
      lastPos := Point(0.0, 0.0);
      brushSize := DefaultBrushSize;
      mode := Add;
    }

    /** The image `onload` handler: fit the image into the container, size the
        canvas to the integer parts of the fitted size, and install an empty
        layer of that size. createImageData throws when a side is 0, and the
        layer is then left as it was. The parent is not notified. */
    method LoadImage(imgW: real, imgH: real, boxW: real, boxH: real)
      requires Valid() && imgW > 0.0 && imgH > 0.0 && boxW > 0.0 && boxH > 0.0
      modifies this
      ensures Valid()
      ensures !old(hasContext) ==> unchanged(this)
      ensures old(hasContext) ==>
        var f := FitImage(imgW, imgH, boxW, boxH);
        width == PixelSize(f.width) && height == PixelSize(f.height) && scale == f.scale
      ensures old(hasContext) && width > 0 && height > 0 ==>
        layer != null && fresh(layer) && layer.Length0 == height && layer.Length1 == width && AllClear(layer)
      ensures width == 0 || height == 0 ==> layer == old(layer)
      ensures hasContext == old(hasContext) && isDrawing == old(isDrawing) && lastPos == old(lastPos)
      ensures brushSize == old(brushSize) && mode == old(mode)
    {
      if !hasContext {
        return;
      }
      var f := FitImage(imgW, imgH, boxW, boxH);
      width := PixelSize(f.width);
      height := PixelSize(f.height);
      scale := f.scale;
      if width > 0 && height > 0 {
        layer := ClearLayer(height, width);
      }
    }

    /** draw(x, y) as run by a handler whose render saw `snapshot` as the
        selection layer: stamp the snapshot and make the result the layer. */
    method Draw(snapshot: array2?<real>, p: Point) returns (notice: Notice)
      requires Valid() && Fits(snapshot)
      modifies this`layer
      ensures Valid()
      ensures !(hasContext && snapshot != null && width > 0 && height > 0) ==>
        layer == old(layer) && notice == Silent
      ensures hasContext && snapshot != null && width > 0 && height > 0 ==>
        layer != null && fresh(layer) && IsStampOf(snapshot, layer, p, brushSize, mode)
        && notice == Reported(Some(layer))
    {
      if !hasContext || snapshot == null || width == 0 || height == 0 {
        return Silent;
      }
      layer := Stamp(snapshot, p, brushSize, mode);
      notice := Reported(Some(layer));
    }

    /** Mouse down: start drawing, remember the point, stamp it once. */
    method MouseDown(clientX: real, clientY: real, rect: Rect) returns (notice: Notice)
      requires Valid()
      modifies this`isDrawing, this`lastPos, this`layer
      ensures Valid()
      ensures isDrawing && lastPos == ToCanvasSpace(clientX, clientY, rect)
      ensures !old(CanDraw()) ==> layer == old(layer) && notice == Silent
      ensures old(CanDraw()) ==>
        layer != null && fresh(layer) && IsStampOf(old(layer), layer, lastPos, brushSize, mode)
        && notice == Reported(Some(layer))
    {
      isDrawing := true;
      var p := ToCanvasSpace(clientX, clientY, rect);
      lastPos := p;
      notice := Draw(layer, p);
    }

    /** Mouse move, as written: every draw of the interpolated run reads the
        layer of the same render, so each stamp replaces the one before and
        only the stamp at the current point survives. `drawn` records the
        points draw was called with. When the first draw throws, the handler
        stops before lastPos is updated. */
    method MouseMove(clientX: real, clientY: real, rect: Rect) returns (notice: Notice, ghost drawn: seq<Point>)
      requires Valid()
      modifies this`layer, this`lastPos
      ensures Valid()
      ensures !old(isDrawing) || old(DrawThrows()) ==>
        layer == old(layer) && lastPos == old(lastPos) && notice == Silent && drawn == []
      ensures old(isDrawing) && !old(DrawThrows()) ==>
        lastPos == ToCanvasSpace(clientX, clientY, rect)
        && drawn == StrokePoints(old(lastPos), lastPos, brushSize as real)
      ensures old(isDrawing) && !old(CanDraw()) ==> layer == old(layer) && notice == Silent
      ensures old(isDrawing) && old(CanDraw()) ==>
        layer != null && fresh(layer) && IsStampOf(old(layer), layer, lastPos, brushSize, mode)
        && notice == Reported(Some(layer))
    {
      drawn := [];
      notice := Silent;
      if !isDrawing || DrawThrows() {
        return;
      }
      var p := ToCanvasSpace(clientX, clientY, rect);
      var snapshot, last := layer, lastPos;
      var s, d2 := Spacing(brushSize as real), DistSq(last, p);
      ghost var pts := StrokePoints(last, p, brushSize as real);
      if d2 > Sq(s) {
        var steps := StepCount(d2, s);
        notice, drawn := StampEach(snapshot, last, p, steps);
        GridUnique(last, p, drawn, pts);
      } else {
        notice := Draw(snapshot, p);
        drawn := [p];
      }
      lastPos := p;
    }

    /** The interpolating loop as written: draws at t = i/steps for
        i = 1..steps, every one of them stamping the same snapshot, so the
        layer ends as the snapshot with the last stamp only. */
    method StampEach(snapshot: array2?<real>, last: Point, p: Point, steps: nat) returns (notice: Notice, ghost drawn: seq<Point>)
      requires Valid() && Fits(snapshot) && steps >= 1
      modifies this`layer
      ensures Valid()
      ensures |drawn| == steps && OnGrid(last, p, drawn)
      ensures !(hasContext && snapshot != null && width > 0 && height > 0) ==>
        layer == old(layer) && notice == Silent
      ensures hasContext && snapshot != null && width > 0 && height > 0 ==>
        layer != null && fresh(layer) && IsStampOf(snapshot, layer, drawn[steps - 1], brushSize, mode)
        && notice == Reported(Some(layer))
    {
      drawn := [];
      notice := Silent;
      for i := 1 to steps + 1
        invariant Valid() && |drawn| == i - 1
        invariant forall k :: 0 <= k < i - 1 ==> drawn[k] == Lerp(last, p, (k + 1) as real / steps as real)
        invariant !(hasContext && snapshot != null && width > 0 && height > 0) ==>
          layer == old(layer) && notice == Silent
        invariant hasContext && snapshot != null && width > 0 && height > 0 && i > 1 ==>
          layer != null && fresh(layer) && IsStampOf(snapshot, layer, drawn[i - 2], brushSize, mode)
          && notice == Reported(Some(layer))
      {
        var t := i as real / steps as real;
        var q := Lerp(last, p, t);
        assert t == ((i - 1) + 1) as real / steps as real;
        notice := Draw(snapshot, q);
        drawn := drawn + [q];
      }
    }

    /** Mouse move as the interpolation evidently intends: each draw stamps the
        layer the previous draw produced, so every point of the run leaves its
        stamp. Differs from MouseMove only in the layer each draw reads. In Add
        mode every pixel under any stamp of the run ends at least as opaque as
        the tint. */
    method MouseMoveAccumulating(clientX: real, clientY: real, rect: Rect) returns (notice: Notice, ghost drawn: seq<Point>)
      requires Valid()
      modifies this`layer, this`lastPos
      ensures Valid()
      ensures !old(isDrawing) || old(DrawThrows()) ==>
        layer == old(layer) && lastPos == old(lastPos) && notice == Silent && drawn == []
      ensures old(isDrawing) && !old(DrawThrows()) ==>
        lastPos == ToCanvasSpace(clientX, clientY, rect)
        && drawn == StrokePoints(old(lastPos), lastPos, brushSize as real)
      ensures old(isDrawing) && !old(CanDraw()) ==> layer == old(layer) && notice == Silent
      ensures old(isDrawing) && old(CanDraw()) ==>
        layer != null && fresh(layer) && notice == Reported(Some(layer))
        && layer.Length0 == old(layer).Length0 && layer.Length1 == old(layer).Length1
        && forall r, c :: 0 <= r < layer.Length0 && 0 <= c < layer.Length1 ==>
             layer[r, c] == FoldStamps(old(layer)[r, c], r, c, drawn, brushSize as real, mode)
      ensures old(isDrawing) && old(CanDraw()) && mode == Add ==>
        forall r, c, k ::
          0 <= r < layer.Length0 && 0 <= c < layer.Length1 && 0 <= k < |drawn| && InDisk(r, c, drawn[k], brushSize as real)
          ==> layer[r, c] >= TintAlpha
    {
      drawn := [];
      notice := Silent;
      if !isDrawing || DrawThrows() {
        return;
      }
      var p := ToCanvasSpace(clientX, clientY, rect);
      var snapshot, last := layer, lastPos;
      var s, d2 := Spacing(brushSize as real), DistSq(last, p);
      ghost var pts := StrokePoints(last, p, brushSize as real);
      var steps := if d2 > Sq(s) then StepCount(d2, s) else 1;
      notice, drawn := StampRun(last, p, steps);
      GridUnique(last, p, drawn, pts);
      if old(CanDraw()) && mode == Add {
        RunCovers(snapshot, layer, drawn, brushSize);
      }
      lastPos := p;
    }

    /** The interpolating loop with each draw reading the layer the previous
        one produced: stamps at t = i/steps for i = 1..steps, accumulated. */
    method StampRun(last: Point, p: Point, steps: nat) returns (notice: Notice, ghost drawn: seq<Point>)
      requires Valid() && steps >= 1
      modifies this`layer
      ensures Valid()
      ensures |drawn| == steps && OnGrid(last, p, drawn)
      ensures !old(CanDraw()) ==> layer == old(layer) && notice == Silent
      ensures old(CanDraw()) ==>
        layer != null && fresh(layer) && notice == Reported(Some(layer))
        && layer.Length0 == old(layer).Length0 && layer.Length1 == old(layer).Length1
        && forall r, c :: 0 <= r < layer.Length0 && 0 <= c < layer.Length1 ==>
             layer[r, c] == FoldStamps(old(layer)[r, c], r, c, drawn, brushSize as real, mode)
    {
      var snapshot := layer;
      drawn := [];
      notice := Silent;
      for i := 1 to steps + 1
        invariant Valid() && |drawn| == i - 1
        invariant forall k :: 0 <= k < i - 1 ==> drawn[k] == Lerp(last, p, (k + 1) as real / steps as real)
        invariant !old(CanDraw()) ==> layer == snapshot && notice == Silent
        invariant old(CanDraw()) ==>
          layer != null && layer.Length0 == snapshot.Length0 && layer.Length1 == snapshot.Length1
          && (i > 1 ==> fresh(layer) && notice == Reported(Some(layer)))
          && forall r, c :: 0 <= r < layer.Length0 && 0 <= c < layer.Length1 ==>
               layer[r, c] == FoldStamps(snapshot[r, c], r, c, drawn, brushSize as real, mode)
      {
        var t := i as real / steps as real;
        var q := Lerp(last, p, t);
        assert t == ((i - 1) + 1) as real / steps as real;
        ghost var before := layer;
        notice := Draw(layer, q);
        if old(CanDraw()) {
          FoldExtends(snapshot, before, layer, drawn, q, brushSize, mode);
        }
        drawn := drawn + [q];
      }
    }

    /** Mouse up and mouse leave both end the stroke. */
    method MouseUp()
      requires Valid()
      modifies this`isDrawing
      ensures Valid() && !isDrawing
    {
      isDrawing := false;
    }

    method MouseLeave()
      requires Valid()
      modifies this`isDrawing
      ensures Valid() && !isDrawing
    {
      isDrawing := false;
    }

    /** The brush-size slider: an integer in 5..100. */
    method SetBrushSize(size: int)
      requires Valid() && MinBrushSize <= size <= MaxBrushSize
      modifies this`brushSize
      ensures Valid() && brushSize == size
    {
      brushSize := size;
    }

    method SetMode(m: Mode)
      requires Valid()
      modifies this`mode
      ensures Valid() && mode == m
    {
      mode := m;
    }

    /** Clear Selection: install an empty layer of the canvas's size and report
        null to the parent. Without a context nothing happens; on a zero-sized
        canvas createImageData throws before anything changes. */
    method Clear() returns (notice: Notice)
      requires Valid()
      modifies this`layer
      ensures Valid()
      ensures !(hasContext && width > 0 && height > 0) ==> layer == old(layer) && notice == Silent
      ensures hasContext && width > 0 && height > 0 ==>
        layer != null && fresh(layer) && layer.Length0 == height && layer.Length1 == width
        && AllClear(layer) && notice == Reported(None)
    {
      if !hasContext || width == 0 || height == 0 {
        return Silent;
      }
      layer := ClearLayer(height, width);
      notice := Reported(None);
    }

    /** The context effect as evidently intended: run again once the canvas
        element exists, instead of only at mount. */
    method AcquireContext()
      requires Valid()
      modifies this`hasContext
      ensures Valid() && hasContext
    {
      hasContext := true;
    }
  }
}
