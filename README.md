# Brush-and-prompt selection engine, in Dafny

This project models the selection core of the brush-and-prompt image editor
and proves properties of that model. The core lives in two React files:

- `src/components/editor/Canvas.tsx`. It fits the uploaded image into the
  editor's container and maps pointer events into canvas space. It
  interpolates a run of brush stamps between two pointer samples. It keeps a
  selection layer, an alpha grid of the canvas's size, which is created empty
  on image load, stamped once per point by `draw` and reset by
  "Clear Selection". It also tracks `isDrawing` and `lastPos`.
- `src/pages/Index.tsx`. It reads the payload out of a data URL
  (`dataURLToBase64`) and exports the selection (`selectionToBase64`). It keeps
  the page state (`uploadedImage`, `generatedImage`, `selection`, `isLoading`,
  `prompt`). Its handlers are upload, selection change and generate, with
  generate's guard and its loading-flag discipline.

Files and modules:

- `geometry.dfy`, module `Geometry`: aspect fit, pixel truncation, pointer
  translation. Sizes and coordinates are `real`.
- `stroke.dfy`, module `Stroke`: the stroke interpolator. `Math.sqrt` and
  `Math.ceil` are replaced by a squared-distance characterisation of the
  step count.
- `compositing.dfy`, module `Compositing`: one stamp's effect on one pixel's
  alpha. Add is Porter-Duff source-over and Erase is destination-out (section
  9.1 of W3C Compositing and Blending Level 1), with the fill
  `rgba(65, 105, 225, 0.5)` and a hard-edged disk of radius `brushSize / 2`.
- `canvas.dfy`, module `EditorCanvas`: class `Canvas`, the component's state
  and handlers. The layer is an `array2<real>` of alpha. Like an `ImageData`,
  each layer is created fresh and never written afterwards.
- `dataurl.dfy`, module `DataUrl`: `split(",")[1]` against section 3 of
  RFC 2397.
- `session.dfy`, module `EditorPage`: class `Session`, the page's state and
  handlers.
- `scenarios.dfy`, module `Scenarios`: page and canvas driven together. It
  exhibits the two findings below.
- `optional.dfy`, module `Optional`: `Option`, which stands for a nullable value.

What the code does, stated plainly where a reader might expect more:

- Erase halves alpha (destination-out with a half-transparent fill). It does
  not clear to zero in one stamp.
- Repeated Add stamps push alpha above the tint's 0.5. Nothing caps them.
- The exported mask is the working-resolution layer, pixel for pixel. It is
  not upscaled, thresholded or inverted.
- The generate request built at `src/pages/Index.tsx:89-104` carries only the
  prompt and settings. The image payload and the mask are computed and then
  left unused.

## Model

| member | source | states |
|---|---|---|
| Geometry.FitImage | src/components/editor/Canvas.tsx:74-95 | Width-bound exactly when the image is relatively wider than the container; ties go height-bound. The fitted rectangle keeps the image's aspect ratio, is positive and fits inside the container. The scale is the fitted width over the image width. |
| Geometry.AspectOrder | src/components/editor/Canvas.tsx:74-79 | Comparing the two aspect ratios is the same as comparing the cross products. |
| Geometry.FitIsLargest | src/components/editor/Canvas.tsx:74-87 | Any rectangle of the image's shape that fits in the container is no wider and no taller than the fit. |
| Geometry.PixelSize | src/components/editor/Canvas.tsx:90-91 | A fitted size assigned to the canvas keeps its integer part n, with n <= v < n + 1. |
| Geometry.ToCanvasSpace | src/components/editor/Canvas.tsx:174-176 | Adding the rectangle's origin back gives the client point: a pure translation, with no scaling. |
| Geometry.TranslationIsRigid | src/components/editor/Canvas.tsx:185-190 | Mapping into canvas space preserves the distance between any two samples. |
| Geometry.FitLandscapeInSquare | src/components/editor/Canvas.tsx:79-82 | A 1600 x 900 image in an 800 x 800 container fits at 800 x 450, scale 1/2. |
| Geometry.FitTieIsHeightBound | src/components/editor/Canvas.tsx:83-87 | Equal aspect ratios (imgW * boxH == boxW * imgH) take the height-bound branch and fill the container at scale boxW / imgW. |
| Stroke.CountFrom | src/components/editor/Canvas.tsx:194 | Counting up from n gives the least k >= n whose span k * s reaches the distance. |
| Stroke.StepCount | src/components/editor/Canvas.tsx:194 | `Math.ceil(dist / s)` for dist > s: at least 2, and (steps - 1) * s < dist <= steps * s, stated on squares. |
| Stroke.StepCountUnique | src/components/editor/Canvas.tsx:194 | Any n with (n - 1) * s < dist <= n * s is the step count. |
| Stroke.StrokePoints | src/components/editor/Canvas.tsx:190-205 | The run holds one point, the current one, exactly when the distance is at most brushSize / 4. Otherwise it holds `steps` points at t = i / steps for i = 1..steps. It never stamps at t = 0 (lastPos itself appears only when the pointer has not moved, as the current point), and it ends exactly at the current point. |
| Stroke.GridUnique | src/components/editor/Canvas.tsx:196-199 | A run at t = i / n is fixed by its ends and its length. |
| Stroke.GridPoint | src/components/editor/Canvas.tsx:197-199 | The i-th point of such a run, counting from 1, is the segment's point at i / n. |
| Stroke.GridGap | src/components/editor/Canvas.tsx:196-199 | Consecutive points of such a run, with the start counting as the one before the first, are 1 / n of the segment apart. |
| Stroke.StrokeShare | src/components/editor/Canvas.tsx:193-194 | dist / steps is at most the spacing brushSize / 4. |
| Stroke.StrokeSpacing | src/components/editor/Canvas.tsx:194-199 | Every stamp is exactly dist / steps from its predecessor (lastPos for the first), and that gap is at most brushSize / 4. |
| Stroke.StrokeOnSegment | src/components/editor/Canvas.tsx:196-199 | Stamp j is the segment's point at t = (j + 1) / n, and for j < k stamp j has the smaller t, every t in (0, 1]. |
| Stroke.HorizontalDragStamps | src/components/editor/Canvas.tsx:190-202 | A 100-pixel drag with a 20-pixel brush stamps 20 points, 5 pixels apart, ending at the current point. |
| Compositing.StampAlpha | src/components/editor/Canvas.tsx:132-138 | Add gives 0.5 + 0.5a: alpha never falls and reaches at least the tint's. Erase gives 0.5a: alpha never rises and, over real-valued alpha, a painted pixel does not reach zero. |
| Compositing.InDisk | src/components/editor/Canvas.tsx:135-136 | A pixel is covered when its centre lies within brushSize / 2 of the stamp's centre; a covered pixel lies inside the stamp's bounding square. |
| Compositing.PixelAfterStamp | src/components/editor/Canvas.tsx:135-138 | Pixels whose centre is within brushSize / 2 of the stamp are composited; all others keep their alpha. |
| Compositing.FoldStamps | src/components/editor/Canvas.tsx:196-202 | A run of stamps applied one after another keeps alpha in [0, 1]. Add never lowers it and Erase never raises it. |
| Compositing.FoldOutsideUnchanged | src/components/editor/Canvas.tsx:135-138 | A pixel that no stamp of a run covers keeps its alpha. |
| Compositing.FoldCovers | src/components/editor/Canvas.tsx:196-202 | In Add mode, a pixel covered by any stamp of an accumulated run ends at least as opaque as the tint. |
| Compositing.Restamp | src/components/editor/Canvas.tsx:132-138 | n stamps on one pixel keep alpha in [0, 1]. |
| Compositing.RestampAdd | src/components/editor/Canvas.tsx:132-138 | n Add stamps leave (1 - a) / 2^n of the transparency: nothing caps alpha at the tint's. |
| Compositing.RestampErase | src/components/editor/Canvas.tsx:132-138 | n Erase stamps leave a / 2^n: over real-valued alpha a painted pixel is never erased to zero. |
| Compositing.TwoAddsExceedTint | src/components/editor/Canvas.tsx:132-137 | Two Add stamps on a clear pixel give 0.75. |
| Compositing.AddThenEraseLeavesQuarter | src/components/editor/Canvas.tsx:132-137 | Add then Erase on a clear pixel leaves 0.25, not 0. |
| EditorCanvas.Stamp | src/components/editor/Canvas.tsx:121-141 | The new layer has the old one's size and is, pixel for pixel, the old one with one stamp; the old layer is not written. |
| EditorCanvas.ClearLayer | src/components/editor/Canvas.tsx:102 | A new layer of the given size with every alpha 0. |
| EditorCanvas.FoldExtends | src/components/editor/Canvas.tsx:196-202 | Stamping the result of a run once more gives the run extended by one point. |
| EditorCanvas.RunCovers | src/components/editor/Canvas.tsx:196-202 | A layer made by an accumulated Add run is at least tint-opaque under every stamp of the run. |
| EditorCanvas.Canvas.constructor | src/components/editor/Canvas.tsx:19-40 | At mount the context exists only if the canvas element is rendered then. The canvas is 300 x 150 with no layer, brush 20 in Add mode, not drawing, lastPos at the origin. |
| EditorCanvas.Canvas.LoadImage | src/components/editor/Canvas.tsx:60-107 | Without a context nothing changes. Otherwise the canvas takes the truncated fitted size and the fit's scale, and, when both sides are positive, a fresh all-zero layer of that size. On a zero side the layer is kept, because createImageData throws. |
| EditorCanvas.Canvas.Draw | src/components/editor/Canvas.tsx:117-149 | With a context, a captured layer and a non-empty canvas, the layer becomes the captured one with one stamp, and it is reported to the parent. Otherwise nothing changes and nothing is reported. |
| EditorCanvas.Canvas.DrawThrows | src/components/editor/Canvas.tsx:140-141 | With a context and a layer, `getImageData` on a zero-sized canvas throws exactly when draw cannot stamp; a throwing draw never stamps. |
| EditorCanvas.Canvas.MouseDown | src/components/editor/Canvas.tsx:169-180 | Sets isDrawing, records the translated point as lastPos, and stamps it once when drawing is possible. |
| EditorCanvas.Canvas.MouseMove | src/components/editor/Canvas.tsx:182-208 | Ignored unless drawing. Otherwise the interpolated run is drawn and lastPos becomes the current point. Because every draw reads the same snapshot, the layer ends as the old layer with only the stamp at the current point. If the first draw throws, nothing changes. |
| EditorCanvas.Canvas.StampEach | src/components/editor/Canvas.tsx:196-202 | The loop draws the points at t = i / steps, each onto the same snapshot, so the layer is the snapshot with the last stamp only. |
| EditorCanvas.Canvas.MouseMoveAccumulating | src/components/editor/Canvas.tsx:182-208 | Like MouseMove, but each draw reads the previous draw's layer. The layer is the fold of the whole run, and in Add mode every pixel under any stamp is at least tint-opaque. |
| EditorCanvas.Canvas.StampRun | src/components/editor/Canvas.tsx:196-202 | The loop draws the points at t = i / steps, each onto the previous result: the layer is the old one folded with the whole run. |
| EditorCanvas.Canvas.MouseUp | src/components/editor/Canvas.tsx:210-212 | Ends the stroke and keeps the canvas invariant. |
| EditorCanvas.Canvas.MouseLeave | src/components/editor/Canvas.tsx:214-216 | Ends the stroke and keeps the canvas invariant. |
| EditorCanvas.Canvas.SetBrushSize | src/components/editor/Canvas.tsx:219-221 | The brush takes the slider's value, within 5..100. |
| EditorCanvas.Canvas.SetMode | src/components/editor/Canvas.tsx:224-226 | The mode takes the chosen polarity and the canvas invariant is kept. |
| EditorCanvas.Canvas.Clear | src/components/editor/Canvas.tsx:229-245 | With a context and a non-empty canvas, installs a fresh all-zero layer of the canvas's size and reports null. Otherwise nothing changes. |
| EditorCanvas.Canvas.AcquireContext | src/components/editor/Canvas.tsx:31-40 | The corrected context effect: once it has run, a context exists and the canvas invariant is kept. |
| DataUrl.Split | src/pages/Index.tsx:51 | `split` on one character gives at least one piece. No piece contains the separator, and joining the pieces back gives the input. |
| DataUrl.SplitJoin | src/pages/Index.tsx:51 | Splitting a join of separator-free pieces gives back exactly those pieces. |
| DataUrl.DataUrlToBase64 | src/pages/Index.tsx:49-52 | Undefined exactly when the text has no comma; otherwise a comma-free piece. |
| DataUrl.PayloadAfterFirstComma | src/pages/Index.tsx:49-52 | The result is the text between the first comma and the next one, or the end. |
| DataUrl.Base64DataUrlPayload | src/pages/Index.tsx:49-52 | For a base64 data URL whose media type has no comma and whose payload uses the alphabet of section 4 of RFC 4648, the result is the whole payload. |
| DataUrl.PngDataUrlRoundTrip | src/pages/Index.tsx:119 | Reading a comma-free payload back out of the PNG data URL built from a reply gives that payload whole. |
| DataUrl.NoCommaNoPayload | src/pages/Index.tsx:51 | A bare base64 payload without its data-URL header, here the start of a PNG's base64, gives undefined. |
| DataUrl.SplitAfterHead | src/pages/Index.tsx:51 | A comma-free head followed by the separator is split off as its own piece. |
| DataUrl.SplitFirstPiece | src/pages/Index.tsx:51 | A comma-free piece ends at the end of the text or where a separator starts. |
| EditorPage.SelectionToBase64 | src/pages/Index.tsx:55-67 | Without a scratch context the result is empty. Otherwise the export has the selection's width and height and its alpha, pixel for pixel, with no resampling, binarisation or inversion. |
| EditorPage.ExportKeepsTintAlpha | src/pages/Index.tsx:55-67 | A pixel under one Add stamp on a clear layer is exported at alpha 0.5, not 1. |
| EditorPage.Truthy | src/pages/Index.tsx:71 | null and "" are the only falsy image values, so every data URL (it holds a comma) passes the image test. |
| EditorPage.CheckGenerate | src/pages/Index.tsx:71-79 | Passes exactly when the image is truthy, the prompt is non-empty and a selection exists. A missing image or prompt is reported first, whatever the selection. The selection's content is never inspected. |
| EditorPage.Session.constructor | src/pages/Index.tsx:13-17 | Nothing is uploaded, generated or selected, nothing is loading, and the prompt is empty. |
| EditorPage.Session.HandleUpload | src/pages/Index.tsx:31-41 | The read result (null on a failed read) becomes the uploaded image and the generated image is dropped. The selection is untouched. |
| EditorPage.Session.HandleSelectionChange | src/pages/Index.tsx:44-46 | The selection becomes what the canvas reported. |
| EditorPage.Session.SetPrompt | src/pages/Index.tsx:17 | The prompt becomes the typed text. |
| EditorPage.Session.StartGenerate | src/pages/Index.tsx:70-106 | Rejected exactly when the guard fails, with the guard's reason and no state change. Otherwise isLoading is set and the request carries the prompt. The image payload and the exported mask are computed beside it. |
| EditorPage.Session.FinishGenerate | src/pages/Index.tsx:108-130 | isLoading ends false on every path. A reply whose data is truthy sets the generated image to `data:image/png;base64,` + the data's text, even when that text is empty. A failure or a falsy reply leaves it as it was. |
| EditorPage.Deliver | src/pages/Index.tsx:165-167 | The page's selection is the last value the canvas reported; a silent handler leaves it as it was. |
| Scenarios.MidPixelCover | src/components/editor/Canvas.tsx:136 | The pixel at row 0, column 50 is under a 20-pixel stamp at (50, 0), and under none at (0, 0) or (100, 0). |
| Scenarios.StampMisses | src/components/editor/Canvas.tsx:135-138 | A stamp leaves every pixel outside its disk as it was. |
| Scenarios.StaleSnapshotDropsStamps | src/components/editor/Canvas.tsx:196-202 | For a 100-pixel drag, one pixel stays clear when only the last stamp counts, and becomes tint-opaque when the whole run is accumulated. |
| Scenarios.DragAsWritten | src/components/editor/Canvas.tsx:182-208 | Through the handlers as written, a pixel under the middle of a drag ends at alpha 0. |
| Scenarios.DragAccumulating | src/components/editor/Canvas.tsx:182-208 | Through the accumulating move, the same pixel ends at least tint-opaque. |
| Scenarios.PaintAsMounted | src/components/editor/Canvas.tsx:31-40 | With the component mounted before any upload, upload, prompt, load and click still leave no selection, and generate is refused with NeedSelection. |
| Scenarios.PaintWithContext | src/components/editor/Canvas.tsx:31-40 | With the context obtained once the canvas exists, the same session sends the prompt, with a mask of the truncated fitted size. |

## Left out

- Browser I/O is left out: FileReader, toasts, console logging, the download link and the window resize listener. Upload is modelled from the read result; `canvasSize` and its effect re-runs are not modelled.
- The Gradio client call is left out. A reply is a parameter of `FinishGenerate`: it failed, or it returned a `result.data` value, represented by whether it is truthy and by the text the template string makes of it (an empty array is truthy with text "", undefined is falsy with text "undefined"). What the data is beyond that is not modelled. The network wait between `StartGenerate` and `FinishGenerate`, and overlapping generate requests, are not modelled.
- Canvas rasterisation is a hard-edged disk sampled at pixel centres, over real-valued alpha. Anti-aliasing, 8-bit premultiplied rounding, RGB channels, `drawImage` scaling, `redraw`'s display compositing and PNG/base64 encoding (`toDataURL`) are not modelled.
- Compositing.RestampErase: holds over real-valued alpha only. The layer is an 8-bit `ImageData`, where the 0.5 fill is stored as 128/255 and destination-out rounds alpha 1/255 to 0, so repeated erasing does reach zero in the program. Compositing.StampAlpha's "a painted pixel does not reach zero" is stated over real-valued alpha for the same reason.
- Floating-point rounding is left out: the fit, the translation and the interpolation use exact reals.
- A failed scratch context inside `draw` (`tempCtx` null) is not modelled; `draw` is taken to always get one. `selectionToBase64` does model its own scratch-context failure.
- React's batching of state updates is folded into the handlers: within one handler the last `onSelectionChange` call is the one kept. Every draw in one move reads the same render's layer, which is MouseMove as written.
- The load effect's `!imageUrl` test and its `canvasRef`/`containerRef` tests are folded into the caller. `LoadImage` is called for a loaded image in a mounted container.
- EditorCanvas.Canvas.Clear: the `!canvasRef.current` test of `clearSelection` is folded into the caller, and Clear is taken to be called with the canvas element mounted. The element unmounting when a later read fails (the image URL becomes null) and remounting are not modelled; in that state the program does nothing where the model installs an empty layer and reports null.
- Geometry.FitImage: requires positive image and container sizes. A zero container height divides by zero in the source, and that case is not modelled.
- EditorCanvas.Canvas.LoadImage: requires positive image and container sizes, for the same reason as FitImage.
- EditorCanvas.Canvas.SetBrushSize: requires a size in 5..100. The range slider only produces such values; other callers are not modelled.
- The settings sent with the prompt (model, negative prompt, steps, cfg, sampler, scheduler, seed, strengths) are not modelled; they pass straight through.
- The Generate button's enabling condition (`isLoading || !isImageUploaded || !prompt`, in `src/components/editor/EditorControls.tsx:327`) is not modelled; `StartGenerate` models the handler's own guard.
- The stored `scale` is computed and kept, but nothing downstream uses it.

## Findings

| source | as written | input that shows it | evidently intended | confidence | as-written member | corrected member |
|---|---|---|---|---|---|---|
| src/components/editor/Canvas.tsx:196-202 | Each `draw` in the interpolation loop stamps the `selectionLayer` of the current render, so each stamp replaces the one before and only the stamp at the current point survives. | A drag from (0, 0) to (100, 0) with the 20-pixel brush on a clear 200 x 200 layer: the pixel at row 0, column 50 sits under the tenth interpolated stamp and stays at alpha 0. | Every interpolated stamp accumulates, so the stroke has no gaps. | not executed; high | Scenarios.DragAsWritten | Scenarios.DragAccumulating |
| src/components/editor/Canvas.tsx:31-40 | The context effect runs once, at mount. When the page mounts, no image is uploaded yet, so no canvas element exists and no context is obtained. Image load, draw and clear all return early from then on. | Any session that mounts the page and then uploads, prompts, loads and clicks: the canvas reports nothing, and generate is refused with "select an area". | The context is obtained once the canvas element exists. | not executed; high | Scenarios.PaintAsMounted | Scenarios.PaintWithContext |
