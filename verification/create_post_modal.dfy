/** The create-post wizard (src/components/CreatePostModal.tsx): a four-step machine
    select → crop → filter → create, the files it carries, the aspect-ratio toggle, the
    header buttons each step shows, and the form payload the Share button submits. */
module CreatePostModal {
  import opened Common
  import opened Forms

  datatype Step = Select | Crop | FilterStep | Create

  datatype AspectRatio = Square | Original

  /** The wizard's state. `closed` records that `onClose` was called. The zoom slider is a
      float and is not part of the model. */
  datatype Wizard = Wizard(
    step: Step,
    files: seq<ImageFile>,
    currentImageIndex: int,
    caption: string,
    location: string,
    filter: string,
    aspectRatio: AspectRatio,
    uploading: bool,
    closed: bool)

  /** The state the modal mounts with. */
  function Initial(): (w: Wizard)
    ensures w.step == Select && w.files == [] && w.currentImageIndex == 0
    ensures w.aspectRatio == Square && !w.uploading && !w.closed
    ensures w.caption == "" && w.location == "" && w.filter == ""
  {
    Wizard(Select, [], 0, "", "", "", Square, false, false)
  }

  /** Rank of a step in the order select < crop < filter < create. */
  function Position(s: Step): (n: nat)
    ensures n < 4
  {
    match s
    case Select => 0
    case Crop => 1
    case FilterStep => 2
    case Create => 3
  }

  /** `onDrop` as written: the dropped list becomes `files` and the wizard moves to crop,
      whatever the list holds and whatever image index was selected before. */
  function OnDrop(w: Wizard, dropped: seq<ImageFile>): (r: Wizard)
    ensures r.files == dropped && r.step == Crop
    ensures r.(files := w.files, step := w.step) == w
  {
    w.(files := dropped, step := Crop)
  }

  /** `handleBack`: one step back; leaving crop for select also drops the files. */
  function HandleBack(w: Wizard): (r: Wizard)
    ensures w.step == Select ==> r == w
    ensures w.step != Select ==> Position(r.step) + 1 == Position(w.step)
    ensures r.files == (if w.step == Crop then [] else w.files)
    ensures r.(step := w.step, files := w.files) == w
  {
    match w.step
    case Create => w.(step := FilterStep)
    case FilterStep => w.(step := Crop)
    case Crop => w.(step := Select, files := [])
    case Select => w
  }

  /** `handleNext`: one step forward from crop or filter; select and create stay put. */
  function HandleNext(w: Wizard): (r: Wizard)
    ensures w.step == Select || w.step == Create ==> r == w
    ensures w.step == Crop || w.step == FilterStep ==> Position(r.step) == Position(w.step) + 1
    ensures r.(step := w.step) == w
  {
    match w.step
    case Crop => w.(step := FilterStep)
    case FilterStep => w.(step := Create)
    case _ => w
  }

  /** The aspect-ratio button shown in crop: square and original swap. */
  function ToggleAspect(w: Wizard): (r: Wizard)
    ensures r.aspectRatio != w.aspectRatio
    ensures r.(aspectRatio := w.aspectRatio) == w
  {
    w.(aspectRatio := if w.aspectRatio == Square then Original else Square)
  }

  /** A click on the preview's dot for image `i`; the dots exist only for indices of `files`. */
  function PickImage(w: Wizard, i: int): (r: Wizard)
    requires 0 <= i < |w.files|
    ensures r.currentImageIndex == i && r.(currentImageIndex := w.currentImageIndex) == w
  {
    w.(currentImageIndex := i)
  }

  /** The caption textarea's `maxLength`: it never delivers a longer value. */
  const MaxCaption := 2200

  /** Typing in the caption textarea of the create step. */
  function EditCaption(w: Wizard, text: string): (r: Wizard)
    requires |text| <= MaxCaption
    ensures r.caption == text && r.(caption := w.caption) == w
  {
    w.(caption := text)
  }

  /** Typing in the location input of the create step. */
  function EditLocation(w: Wizard, text: string): (r: Wizard)
    ensures r.location == text && r.(location := w.location) == w
  {
    w.(location := text)
  }

  /** Clicking a filter tile: its CSS class becomes the chosen filter. */
  function ChooseFilter(w: Wizard, cssClass: string): (r: Wizard)
    ensures r.filter == cssClass && r.(filter := w.filter) == w
  {
    w.(filter := cssClass)
  }

  datatype LeftButton = CloseButton | BackButton

  /** The right header button: Share (disabled while uploading) or Next (hidden in select). */
  datatype RightButton = ShareButton(disabled: bool) | NextButton(visible: bool)

  datatype Header = Header(left: LeftButton, title: string, right: RightButton)

  /** The header each step renders. */
  function HeaderFor(w: Wizard): (h: Header)
    ensures h.left == CloseButton <==> w.step == Select
    ensures h.right.ShareButton? <==> w.step == Create
    ensures h.right.ShareButton? ==> (h.right.disabled <==> w.uploading)
    ensures h.right.NextButton? ==> (h.right.visible <==> w.step != Select)
    ensures h.title == "Create new post" <==> w.step == Select || w.step == Create
  {
    Header(
      if w.step == Select then CloseButton else BackButton,
      match w.step
      case Select => "Create new post"
      case Crop => "Crop"
      case FilterStep => "Edit"
      case Create => "Create new post",
      if w.step == Create then ShareButton(w.uploading) else NextButton(w.step != Select))
  }

  /** A click on the left header button: close in select, back otherwise. */
  function ClickLeft(w: Wizard): (r: Wizard)
    ensures w.step == Select ==> r.closed && r.(closed := w.closed) == w
    ensures w.step != Select ==> r == HandleBack(w)
  {
    if HeaderFor(w).left == CloseButton then w.(closed := true) else HandleBack(w)
  }

  /** The form `handleSubmit` posts (zoom, a float, is left out): every file under `images`,
      the caption, then location and filter only when non-empty, then the aspect ratio. */
  function SubmitPayload(w: Wizard): (fields: seq<FormField>)
    ensures |fields| == |w.files| + 2 + (if w.location != "" then 1 else 0) + (if w.filter != "" then 1 else 0)
    ensures forall i :: 0 <= i < |w.files| ==> fields[i] == FileField("images", w.files[i])
    ensures fields[|w.files|] == TextField("caption", w.caption)
    ensures fields[|fields| - 1] == TextField("aspectRatio", AspectName(w.aspectRatio))
    ensures TextField("location", w.location) in fields <==> w.location != ""
  {
    ImageFields(w.files) + PayloadTail(w)
  }

  function AspectName(a: AspectRatio): string
  {
    if a == Square then "square" else "original"
  }

  /** The text fields after the files. */
  function PayloadTail(w: Wizard): seq<FormField>
  {
    [TextField("caption", w.caption)]
    + (if w.location != "" then [TextField("location", w.location)] else [])
    + (if w.filter != "" then [TextField("filter", w.filter)] else [])
    + [TextField("aspectRatio", AspectName(w.aspectRatio))]
  }

  /** Reading the posted form back gives the wizard's files in order and each text field's
      value; an empty location or filter is absent rather than empty. */
  lemma PayloadReadsBack(w: Wizard)
    ensures ImagesOf(SubmitPayload(w)) == w.files
    ensures TextOf(SubmitPayload(w), "caption") == Some(w.caption)
    ensures TextOf(SubmitPayload(w), "location") == if w.location != "" then Some(w.location) else None
    ensures TextOf(SubmitPayload(w), "filter") == if w.filter != "" then Some(w.filter) else None
    ensures TextOf(SubmitPayload(w), "aspectRatio") == Some(AspectName(w.aspectRatio))
  {
    ImagesOfAppend(ImageFields(w.files), PayloadTail(w));
    ImageFieldsReadBack(w.files, "");
    FieldReadsBack(w, "caption");
    FieldReadsBack(w, "location");
    FieldReadsBack(w, "filter");
    FieldReadsBack(w, "aspectRatio");
  }

  /** What was last typed or chosen is what Share posts: the caption as typed, the location
      and filter only when non-empty, and the files untouched by the edits. */
  lemma EditsAreSubmitted(w: Wizard, caption: string, location: string, cssClass: string)
    requires |caption| <= MaxCaption
    ensures var e := ChooseFilter(EditLocation(EditCaption(w, caption), location), cssClass);
      && ImagesOf(SubmitPayload(e)) == w.files
      && TextOf(SubmitPayload(e), "caption") == Some(caption)
      && TextOf(SubmitPayload(e), "location") == (if location != "" then Some(location) else None)
      && TextOf(SubmitPayload(e), "filter") == (if cssClass != "" then Some(cssClass) else None)
  {
    PayloadReadsBack(ChooseFilter(EditLocation(EditCaption(w, caption), location), cssClass));
  }

  /** One text lookup in the posted form, and the absence of files after the images. */
  lemma FieldReadsBack(w: Wizard, key: string)
    ensures ImagesOf(PayloadTail(w)) == []
    ensures TextOf(SubmitPayload(w), key) ==
      if key == "caption" then Some(w.caption)
      else if key == "location" && w.location != "" then Some(w.location)
      else if key == "filter" && w.filter != "" then Some(w.filter)
      else if key == "aspectRatio" then Some(AspectName(w.aspectRatio))
      else None
  {
    var last := [TextField("aspectRatio", AspectName(w.aspectRatio))];
    var f := if w.filter != "" then [TextField("filter", w.filter)] else [];
    var l := if w.location != "" then [TextField("location", w.location)] else [];
    assert last == [TextField("aspectRatio", AspectName(w.aspectRatio))] + [];
    TextFieldReadsBack("aspectRatio", AspectName(w.aspectRatio), [], key);
    OptionalFieldReadsBack("filter", w.filter, last, key);
    OptionalFieldReadsBack("location", w.location, f + last, key);
    TextFieldReadsBack("caption", w.caption, l + (f + last), key);
    assert PayloadTail(w) == [TextField("caption", w.caption)] + (l + (f + last));
    TextOfAppend(ImageFields(w.files), PayloadTail(w), key);
    ImageFieldsReadBack(w.files, key);
  }

  /** The first half of `handleSubmit`: `uploading` turns on while the form is posted. */
  function StartSubmit(w: Wizard): (r: Wizard)
    ensures r.uploading
    ensures w.step == Create ==> HeaderFor(r).right == ShareButton(true)
    ensures r.(uploading := w.uploading) == w
  {
    w.(uploading := true)
  }

  /** The second half of `handleSubmit`, once the request has settled: the modal closes when
      the upload succeeded and stays open otherwise; either way `uploading` ends false. */
  function SubmitSettled(w: Wizard, ok: bool): (r: Wizard)
    ensures !r.uploading
    ensures r.closed <==> ok || w.closed
    ensures r.(uploading := w.uploading, closed := w.closed) == w
  {
    w.(uploading := false, closed := w.closed || ok)
  }

  /** A click on the right header button: an enabled Share starts the upload, a disabled one
      does nothing, and Next advances. */
  function ClickRight(w: Wizard): (r: Wizard)
    ensures r.uploading != w.uploading <==> w.step == Create && !w.uploading
    ensures w.step != Create ==> r == HandleNext(w)
    ensures w.step == Create && w.uploading ==> r == w
    ensures w.step == Create && !w.uploading ==> r == StartSubmit(w)
  {
    match HeaderFor(w).right
    case ShareButton(disabled) => if disabled then w else StartSubmit(w)
    case NextButton(_) => HandleNext(w)
  }

  // ---------------------------------------------------------------------------------------
  // Properties of the step machine.

  /** From crop or filter, Next then Back returns to exactly the starting state. */
  lemma NextThenBack(w: Wizard)
    requires w.step == Crop || w.step == FilterStep
    ensures HandleBack(HandleNext(w)) == w
  {
  }

  /** From filter or create, Back then Next returns to exactly the starting state; from crop
      the same round trip loses the files. */
  lemma BackThenNext(w: Wizard)
    requires w.step == FilterStep || w.step == Create
    ensures HandleNext(HandleBack(w)) == w
  {
  }

  /** Toggling the aspect ratio twice is the identity. */
  lemma ToggleTwice(w: Wizard)
    ensures ToggleAspect(ToggleAspect(w)) == w
  {
  }

  /** Share is offered only in create, so only that step can start an upload. */
  lemma OnlyCreateSubmits(w: Wizard)
    requires ClickRight(w).uploading && !w.uploading
    ensures w.step == Create
  {
  }

  // ---------------------------------------------------------------------------------------
  // The preview reads `files[currentImageIndex]` whenever the step is not select.

  /** The preview image of every step after select exists. */
  predicate PreviewDefined(w: Wizard)
  {
    w.step == Select || 0 <= w.currentImageIndex < |w.files|
  }

  /** As written, dropping a batch in which every file was rejected (react-dropzone still
      calls `onDrop`, with an empty list) reaches crop with nothing to preview. */
  lemma EmptyDropLeavesNoPreview()
    ensures !PreviewDefined(OnDrop(Initial(), []))
  {
  }

  /** As written, the selected image index survives Back and a new drop: pick the third of
      three images, go back, drop one image, and the preview index points past the files. */
  lemma StaleIndexAfterRedrop(a: ImageFile, b: ImageFile, c: ImageFile, d: ImageFile)
    ensures
      var w1 := OnDrop(Initial(), [a, b, c]);
      var w2 := PickImage(w1, 2);
      var w3 := OnDrop(HandleBack(w2), [d]);
      w3.step == Crop && w3.currentImageIndex == 2 && !PreviewDefined(w3)
  {
  }

  /** `onDrop` as evidently intended: an empty drop keeps the wizard where it is, and a new
      batch starts from its first image. */
  function OnDropChecked(w: Wizard, dropped: seq<ImageFile>): (r: Wizard)
    ensures |dropped| == 0 ==> r == w
    ensures |dropped| > 0 ==> r.files == dropped && r.step == Crop && r.currentImageIndex == 0
    ensures |dropped| > 0 ==> r.(files := w.files, step := w.step, currentImageIndex := w.currentImageIndex) == w
    ensures PreviewDefined(w) ==> PreviewDefined(r)
  {
    if |dropped| == 0 then w else w.(files := dropped, step := Crop, currentImageIndex := 0)
  }

  /** The user's inputs to the wizard. */
  datatype Event =
    | Drop(files: seq<ImageFile>)
    | Back
    | Next
    | Toggle
    | Pick(index: int)
    | TypeCaption(text: string)
    | TypeLocation(text: string)
    | FilterTile(cssClass: string)
    | ClickShareOrNext
    | Settled(ok: bool)

  /** One event applied with the corrected `onDrop`. A dot click outside the rendered dots,
      typing outside the create step and a filter tile outside the filter step cannot happen
      and leave the state alone. */
  function Apply(w: Wizard, e: Event): (r: Wizard)
    ensures e.Drop? ==> r == OnDropChecked(w, e.files)
    ensures e.Back? ==> r == HandleBack(w)
    ensures e.Next? ==> r == HandleNext(w)
  {
    match e
    case Drop(files) => OnDropChecked(w, files)
    case Back => HandleBack(w)
    case Next => HandleNext(w)
    case Toggle => ToggleAspect(w)
    case Pick(i) => if 0 <= i < |w.files| then PickImage(w, i) else w
    case TypeCaption(t) => if w.step == Create && |t| <= MaxCaption then EditCaption(w, t) else w
    case TypeLocation(t) => if w.step == Create then EditLocation(w, t) else w
    case FilterTile(c) => if w.step == FilterStep then ChooseFilter(w, c) else w
    case ClickShareOrNext => ClickRight(w)
    case Settled(ok) => SubmitSettled(w, ok)
  }

  /** The events applied in order. */
  function Run(w: Wizard, events: seq<Event>): Wizard
    decreases |events|
  {
    if |events| == 0 then w else Run(Apply(w, events[0]), events[1..])
  }

  /** The invariant every reachable wizard keeps: in select there are no files, and after
      select the preview index is inside the files. */
  predicate Good(w: Wizard)
  {
    (w.step == Select ==> w.files == []) && PreviewDefined(w)
  }

  /** Every event keeps the invariant. */
  lemma ApplyKeepsGood(w: Wizard, e: Event)
    requires Good(w)
    ensures Good(Apply(w, e))
  {
  }

  /** With the corrected `onDrop`, no sequence of events starting from the initial state ever
      reaches a step whose preview is missing. */
  lemma {:induction false} RunKeepsGood(w: Wizard, events: seq<Event>)
    requires Good(w)
    ensures Good(Run(w, events))
    ensures PreviewDefined(Run(w, events))
    decreases |events|
  {
    if |events| > 0 {
      ApplyKeepsGood(w, events[0]);
      RunKeepsGood(Apply(w, events[0]), events[1..]);
    }
  }

  lemma ReachableHasPreview(events: seq<Event>)
    ensures PreviewDefined(Run(Initial(), events))
  {
    RunKeepsGood(Initial(), events);
  }
}
