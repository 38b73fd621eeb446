/** The editor page's state (the uploaded and generated image URLs, the
    selection handed up by the canvas, the loading flag, the prompt) and the
    handlers that change it: upload, selection change, and the generate
    request with its guard, its exports and its reply. */
module EditorPage {
  import opened Optional
  import opened DataUrl
  import opened Compositing
  import opened EditorCanvas

  /** The selection as `toDataURL("image/png")` encodes it: either nothing, the
      empty string returned when the scratch canvas has no 2D context, or an
      image of the selection's size whose alpha is the selection's, pixel for
      pixel. PNG and base64 encoding themselves are not modelled. */
  datatype Mask = NoMask | Png(width: nat, height: nat, alpha: seq<seq<real>>)

  /** Why the generate handler stopped before sending anything. */
  datatype Rejection = NeedImageAndPrompt | NeedSelection

  /** What the generate handler did up to the network call: stopped, or set the
      loading flag and computed the request. Only the prompt goes into the
      request; the image and mask exports are computed and then left unused. */
  datatype Start = Rejected(why: Rejection) | Requested(sentPrompt: string, unusedImage: Option<string>, unusedMask: Mask)

  /** How the network call ended: it threw (client or predict failed), or it
      returned a `data` value, seen through the two things the handler does
      with it: whether it is truthy, and the text it becomes in the template
      string. The two are independent: an empty array is truthy and prints as
      "", undefined is falsy and prints as "undefined". */
  datatype Reply = Failed | Returned(truthy: bool, text: string)

  /** JavaScript truthiness of a nullable string: null and "" are the only
      falsy values, so every data URL (it holds a comma) is truthy. */
  predicate Truthy(s: Option<string>): (t: bool)
    ensures !t <==> s == None || s == Some("")
    ensures s.Some? && ',' in s.value ==> t
  {
    s.Some? && s.value != ""
  }

  /** selectionToBase64: draw the selection into a scratch canvas of its size
      and export that canvas. Nothing is scaled, thresholded or inverted: the
      exported alpha is the selection's own. */
  function SelectionToBase64(sel: Layer, scratchContext: bool): (m: Mask)
    reads sel
    ensures m.NoMask? <==> !scratchContext
    ensures m.Png? ==>
      && m.width == sel.Length1 && m.height == sel.Length0 && |m.alpha| == sel.Length0
      && (forall r :: 0 <= r < sel.Length0 ==> |m.alpha[r]| == sel.Length1)
      && (forall r, c :: 0 <= r < sel.Length0 && 0 <= c < sel.Length1 ==> m.alpha[r][c] == sel[r, c])
  {
    if !scratchContext then NoMask
    else
      Png(sel.Length1, sel.Length0,
        seq(sel.Length0, r requires 0 <= r < sel.Length0 reads sel =>
          seq(sel.Length1, c requires 0 <= c < sel.Length1 reads sel => sel[r, c])))
  }

  /** A pixel under a single Add stamp on a clear layer is exported with the
      tint's alpha, 0.5: the mask is not binarised to fully opaque. */
  lemma ExportKeepsTintAlpha(before: Layer, sel: Layer, center: Geometry.Point, brushSize: int, r: nat, c: nat)
    requires AllClear(before) && IsStampOf(before, sel, center, brushSize, Add)
    requires r < sel.Length0 && c < sel.Length1 && InDisk(r, c, center, brushSize as real)
    ensures SelectionToBase64(sel, true).alpha[r][c] == TintAlpha
  {
    assert before[r, c] == 0.0;
  }

  /** The guard of handleGenerate: a missing image or prompt is reported first,
      whatever the selection; then a missing selection; otherwise it passes. */
  function CheckGenerate(uploadedImage: Option<string>, prompt: string, selection: Option<Layer>): (r: Option<Rejection>)
    ensures r.None? <==> Truthy(uploadedImage) && prompt != "" && selection.Some?
    ensures !Truthy(uploadedImage) || prompt == "" ==> r == Some(NeedImageAndPrompt)
    ensures Truthy(uploadedImage) && prompt != "" && selection.None? ==> r == Some(NeedSelection)
  {
    if !Truthy(uploadedImage) || prompt == "" then Some(NeedImageAndPrompt)
    else if selection.None? then Some(NeedSelection)
    else None
  }

  class Session {
    var uploadedImage: Option<string>
    var generatedImage: Option<string>
    var selection: Option<Layer>
    var isLoading: bool
    var prompt: string

    /** The page's initial state: nothing uploaded, generated or selected. */
    constructor ()
      ensures uploadedImage == None && generatedImage == None && selection == None
      ensures !isLoading && prompt == ""
    {
      uploadedImage, generatedImage, selection := None, None, None;
      isLoading, prompt := false, "";
    }

    /** The FileReader's loadend callback of handleUpload: the read result (a
        data URL, or null when the read failed) becomes the uploaded image and
        any generated image is dropped. The selection is left as it was. */
    method HandleUpload(result: Option<string>)
      modifies this`uploadedImage, this`generatedImage
      ensures uploadedImage == result && generatedImage == None
    {
      uploadedImage := result;
      generatedImage := None;
    }

    /** handleSelectionChange: the canvas's layer, or null after a clear. */
    method HandleSelectionChange(sel: Option<Layer>)
      modifies this`selection
      ensures selection == sel
    {
      selection := sel;
    }

    method SetPrompt(p: string)
      modifies this`prompt
      ensures prompt == p
    {
      prompt := p;
    }

    /** handleGenerate up to the network call. A rejected call changes nothing;
        otherwise the loading flag is set and the request is built: the prompt
        is sent, the image's base64 payload and the exported mask are computed
        but not sent. */
    method StartGenerate(scratchContext: bool) returns (start: Start)
      modifies this`isLoading
      ensures start.Rejected? <==> CheckGenerate(uploadedImage, prompt, selection).Some?
      ensures start.Rejected? ==>
        start.why == CheckGenerate(uploadedImage, prompt, selection).value && isLoading == old(isLoading)
      ensures start.Requested? ==>
        && isLoading && uploadedImage.Some? && selection.Some?
        && start == Requested(prompt, DataUrlToBase64(uploadedImage.value),
                              SelectionToBase64(selection.value, scratchContext))
    {
      var rejection := CheckGenerate(uploadedImage, prompt, selection);
      if rejection.Some? {
        return Rejected(rejection.value);
      }
      isLoading := true;
      var image64 := DataUrlToBase64(uploadedImage.value);
      var mask := SelectionToBase64(selection.value, scratchContext);
      start := Requested(prompt, image64, mask);
    }

    /** handleGenerate after the network call: a reply whose data is truthy
        becomes the generated image, its text placed after a PNG data-URL
        header; a failure or a falsy reply leaves it as it was. Either way the
        loading flag is cleared. `ok` tells which toast is shown. */
    method FinishGenerate(reply: Reply) returns (ok: bool)
      modifies this`generatedImage, this`isLoading
      ensures !isLoading
      ensures ok <==> reply.Returned? && reply.truthy
      ensures ok ==> generatedImage == Some(PngDataUrl(reply.text))
      ensures !ok ==> generatedImage == old(generatedImage)
    {
      ok := reply.Returned? && reply.truthy;
      if ok {
        generatedImage := Some(PngDataUrl(reply.text));
      }
      isLoading := false;
    }
  }

  /** The onSelectionChange wiring: what the canvas reports reaches the page's
      selection; a silent handler leaves it as it was. */
  method Deliver(page: Session, notice: Notice)
    modifies page`selection
    ensures notice.Reported? ==> page.selection == notice.selection
    ensures notice.Silent? ==> page.selection == old(page.selection)
  {
    if notice.Reported? {
      page.HandleSelectionChange(notice.selection);
    }
  }
}
