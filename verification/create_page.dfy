/** The stand-alone create page (src/app/create/page.tsx): a growing list of picked images
    with per-image removal, and the form that posts them with a caption and a location. */
module CreatePage {
  import opened Common
  import opened Forms

  datatype Form = Form(images: seq<ImageFile>, caption: string, location: string, uploading: bool)

  /** The "Add more" tile is offered below this many images. */
  const AddMoreLimit := 10

  function Empty(): (f: Form)
    ensures f.images == [] && f.caption == "" && f.location == "" && !f.uploading
  {
    Form([], "", "", false)
  }

  /** `handleImageChange`: the chosen files (`None` for a null `FileList`) are appended after
      the images already picked, in order. No cap is enforced here. */
  function HandleImageChange(f: Form, chosen: Option<seq<ImageFile>>): (r: Form)
    ensures chosen.None? ==> r == f
    ensures chosen.Some? ==> r.images == f.images + chosen.value
    ensures |r.images| >= |f.images| && r.images[..|f.images|] == f.images
    ensures r.(images := f.images) == f
  {
    match chosen
    case None => f
    case Some(files) => f.(images := f.images + files)
  }

  /** Every element of `s` except the one at position `index` (`filter((_, i) => i !== index)`). */
  function WithoutIndex<T>(s: seq<T>, index: int): (r: seq<T>)
    ensures 0 <= index < |s| ==> |r| == |s| - 1
    ensures !(0 <= index < |s|) ==> r == s
    ensures forall i :: 0 <= i < |r| && i < index ==> r[i] == s[i]
    ensures forall i :: 0 <= index <= i < |r| ==> r[i] == s[i + 1]
    decreases |s|
  {
    if !(0 <= index < |s|) then s
    else if index == 0 then s[1..]
    else [s[0]] + WithoutIndex(s[1..], index - 1)
  }

  /** `removeImage(index)`: the image at `index` is dropped and the others keep their order;
      an index outside the list changes nothing. */
  function RemoveImage(f: Form, index: int): (r: Form)
    ensures 0 <= index < |f.images| ==> r.images == f.images[..index] + f.images[index + 1..]
    ensures !(0 <= index < |f.images|) ==> r == f
    ensures r.(images := f.images) == f
  {
    var images := WithoutIndex(f.images, index);
    if 0 <= index < |f.images| then
      var spliced := f.images[..index] + f.images[index + 1..];
      forall i | 0 <= i < |images| ensures images[i] == spliced[i] {
        if i < index {
          assert spliced[i] == f.images[..index][i];
        } else {
          assert spliced[i] == f.images[index + 1..][i - index];
        }
      }
      f.(images := images)
    else f.(images := images)
  }

  /** Removing the image just added restores the list. */
  lemma AddThenRemoveLast(f: Form, x: ImageFile)
    ensures RemoveImage(HandleImageChange(f, Some([x])), |f.images|).images == f.images
  {
  }

  /** The "Add more" tile is shown only below ten images. */
  predicate ShowAddMore(f: Form)
  {
    0 < |f.images| < AddMoreLimit
  }

  /** The cap lives only in the rendering: one `change` event with several files can take the
      list past ten. */
  lemma NoCapInHandler(f: Form, more: seq<ImageFile>)
    requires ShowAddMore(f) && |f.images| + |more| > AddMoreLimit
    ensures |HandleImageChange(f, Some(more)).images| > AddMoreLimit
    ensures !ShowAddMore(HandleImageChange(f, Some(more)))
  {
  }

  /** What `handleSubmit` sends: nothing with no image, otherwise one `images` field per
      image in list order followed by the caption and the location, both always present. */
  function SubmitPayload(f: Form): (payload: Option<seq<FormField>>)
    ensures payload.None? <==> |f.images| == 0
    ensures payload.Some? ==> |payload.value| == |f.images| + 2
    ensures payload.Some? ==> forall i :: 0 <= i < |f.images| ==> payload.value[i] == FileField("images", f.images[i])
    ensures payload.Some? ==> payload.value[|f.images|..] == [TextField("caption", f.caption), TextField("location", f.location)]
  {
    if |f.images| == 0 then None
    else Some(ImageFields(f.images) + [TextField("caption", f.caption), TextField("location", f.location)])
  }

  /** Reading the posted form back gives the images in order and the caption and location
      as typed, empty or not. */
  lemma PayloadReadsBack(f: Form)
    requires |f.images| > 0
    ensures ImagesOf(SubmitPayload(f).value) == f.images
    ensures TextOf(SubmitPayload(f).value, "caption") == Some(f.caption)
    ensures TextOf(SubmitPayload(f).value, "location") == Some(f.location)
  {
    var tail := [TextField("caption", f.caption), TextField("location", f.location)];
    var last := [TextField("location", f.location)];
    assert tail == [TextField("caption", f.caption)] + last;
    assert last == [TextField("location", f.location)] + [];
    ImagesOfAppend(ImageFields(f.images), tail);
    forall key | key == "caption" || key == "location"
      ensures TextOf(SubmitPayload(f).value, key) == Some(if key == "caption" then f.caption else f.location)
    {
      TextFieldReadsBack("location", f.location, [], key);
      TextFieldReadsBack("caption", f.caption, last, key);
      TextOfAppend(ImageFields(f.images), tail, key);
      ImageFieldsReadBack(f.images, key);
    }
    ImageFieldsReadBack(f.images, "");
    TextFieldReadsBack("location", f.location, [], "");
    TextFieldReadsBack("caption", f.caption, last, "");
  }

  /** The page after submitting: `Home` is the redirect to `/` that follows a successful post. */
  datatype Outcome = Stay(form: Form) | Home

  /** `handleSubmit` once the request (if any) settled. */
  function HandleSubmit(f: Form, ok: bool): (o: Outcome)
    ensures |f.images| == 0 ==> o == Stay(f)
    ensures |f.images| > 0 && ok ==> o == Home
    ensures |f.images| > 0 && !ok ==> o == Stay(f.(uploading := false))
  {
    if SubmitPayload(f).None? then Stay(f)
    else if ok then Home
    else Stay(f.(uploading := false))
  }

  /** The submit button is disabled with no image or during an upload: it is enabled
      exactly when there is a form to post and no upload is already in flight. */
  function SubmitDisabled(f: Form): (disabled: bool)
    ensures !disabled <==> SubmitPayload(f).Some? && !f.uploading
  {
    |f.images| == 0 || f.uploading
  }
}
