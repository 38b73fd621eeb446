/** The page and the canvas driven together through short sessions, each
    showing, as written and as evidently intended, one way the brush fails to
    build the selection. */
module Scenarios {
  import opened Optional
  import opened Geometry
  import opened Stroke
  import opened Compositing
  import opened EditorCanvas
  import opened EditorPage

  /** The pixel in row 0, column 50 (centre (50.5, 0.5)) lies under a 20-pixel
      stamp at (50, 0) and under none at (0, 0) or (100, 0). */
  lemma MidPixelCover()
    ensures InDisk(0, 50, Point(50.0, 0.0), 20.0)
    ensures !InDisk(0, 50, Point(0.0, 0.0), 20.0) && !InDisk(0, 50, Point(100.0, 0.0), 20.0)
  {
  }

  /** A stamp leaves every pixel outside its disk as it was. */
  lemma StampMisses(before: Layer, after: Layer, center: Point, brushSize: int, mode: Mode, r: nat, c: nat)
    requires IsStampOf(before, after, center, brushSize, mode)
    requires r < after.Length0 && c < after.Length1 && !InDisk(r, c, center, brushSize as real)
    ensures after[r, c] == before[r, c]
  {
  }

  /** The run of stamps of a drag from (0, 0) to (100, 0) with a 20-pixel
      brush, seen from the clear pixel in row 0, column 50: stamping only the
      last point of the run, as every draw of the move handler on the same
      snapshot amounts to, leaves it clear; stamping the whole run makes it
      at least as opaque as the tint. */
  lemma StaleSnapshotDropsStamps()
    ensures var pts := StrokePoints(Point(0.0, 0.0), Point(100.0, 0.0), 20.0);
      && PixelAfterStamp(0.0, 0, 50, pts[|pts| - 1], 20.0, Add) == 0.0
      && FoldStamps(0.0, 0, 50, pts, 20.0, Add) >= TintAlpha
  {
    var pts := StrokePoints(Point(0.0, 0.0), Point(100.0, 0.0), 20.0);
    HorizontalDragStamps();
    MidPixelCover();
    FoldCovers(0.0, 0, 50, pts, 20.0, 9);
  }

  /** A drag from (0, 0) to (100, 0) with the default 20-pixel brush over a
      200 x 200 canvas, with the move handled as written. The result is the
      alpha of the pixel in row 0, column 50. That pixel lies under the tenth
      stamp of the run but under neither the first nor the last, so it stays
      transparent. */
  method DragAsWritten() returns (alpha: real)
    ensures alpha == 0.0
  {
    HorizontalDragStamps();
    MidPixelCover();
    var canvas := new Canvas(true);
    FitTieIsHeightBound(200.0, 200.0, 200.0, 200.0);
    canvas.LoadImage(200.0, 200.0, 200.0, 200.0);
    ghost var clear := canvas.layer;
    var origin := Rect(0.0, 0.0);
    var down := canvas.MouseDown(0.0, 0.0, origin);
    ghost var stamped := canvas.layer;
    StampMisses(clear, stamped, Point(0.0, 0.0), 20, Add, 0, 50);
    var moved, drawn := canvas.MouseMove(100.0, 0.0, origin);
    StampMisses(stamped, canvas.layer, Point(100.0, 0.0), 20, Add, 0, 50);
    alpha := canvas.layer[0, 50];
  }

  /** The same drag with every draw stamping the layer the previous one
      produced: the pixel under the tenth stamp ends at least as opaque as
      the tint. */
  method DragAccumulating() returns (alpha: real)
    ensures alpha >= TintAlpha
  {
    MidPixelCover();
    var canvas := new Canvas(true);
    FitTieIsHeightBound(200.0, 200.0, 200.0, 200.0);
    canvas.LoadImage(200.0, 200.0, 200.0, 200.0);
    ghost var clear := canvas.layer;
    var origin := Rect(0.0, 0.0);
    var down := canvas.MouseDown(0.0, 0.0, origin);
    ghost var stamped := canvas.layer;
    StampMisses(clear, stamped, Point(0.0, 0.0), 20, Add, 0, 50);
    var moved, drawn := canvas.MouseMoveAccumulating(100.0, 0.0, origin);
    StaleSnapshotDropsStamps();
    alpha := canvas.layer[0, 50];
  }

  /** The application as mounted. The page starts with no image, so when the
      canvas component mounts it renders no canvas element, and its context
      effect, which runs at mount only, obtains no context. After an upload,
      a prompt, the image load and a click, the canvas has reported
      nothing, and generate is refused for want of a selection. */
  method PaintAsMounted(dataUrl: string, prompt: string, imgW: real, imgH: real, boxW: real, boxH: real,
                        clientX: real, clientY: real, rect: Rect) returns (start: Start)
    requires dataUrl != "" && prompt != ""
    requires imgW > 0.0 && imgH > 0.0 && boxW > 0.0 && boxH > 0.0
    ensures start == Rejected(NeedSelection)
  {
    var page := new Session();
    var canvas := new Canvas(Truthy(page.uploadedImage));
    page.HandleUpload(Some(dataUrl));
    page.SetPrompt(prompt);
    canvas.LoadImage(imgW, imgH, boxW, boxH);
    var down := canvas.MouseDown(clientX, clientY, rect);
    Deliver(page, down);
    start := page.StartGenerate(true);
  }

  /** The same session with the context obtained once the canvas element
      exists: the click reports a selection and generate sends the prompt,
      with a mask of the canvas's size computed beside it. */
  method PaintWithContext(dataUrl: string, prompt: string, imgW: real, imgH: real, boxW: real, boxH: real,
                          clientX: real, clientY: real, rect: Rect) returns (start: Start)
    requires dataUrl != "" && prompt != ""
    requires imgW > 0.0 && imgH > 0.0 && boxW > 0.0 && boxH > 0.0
    requires FitImage(imgW, imgH, boxW, boxH).width >= 1.0 && FitImage(imgW, imgH, boxW, boxH).height >= 1.0
    ensures start.Requested? && start.sentPrompt == prompt
    ensures start.unusedMask.Png?
    ensures start.unusedMask.width == PixelSize(FitImage(imgW, imgH, boxW, boxH).width)
    ensures start.unusedMask.height == PixelSize(FitImage(imgW, imgH, boxW, boxH).height)
  {
    var page := new Session();
    var canvas := new Canvas(Truthy(page.uploadedImage));
    page.HandleUpload(Some(dataUrl));
    page.SetPrompt(prompt);
    canvas.AcquireContext();
    canvas.LoadImage(imgW, imgH, boxW, boxH);
    var down := canvas.MouseDown(clientX, clientY, rect);
    Deliver(page, down);
    start := page.StartGenerate(true);
  }
}
