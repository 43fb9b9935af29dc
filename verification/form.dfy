/** The multipart forms the two create screens post: `FormData.append` calls in order, and
    what a reader of the form gets back from them. */
module Forms {
  import opened Common

  /** One appended field. */
  datatype FormField = FileField(name: string, file: ImageFile) | TextField(name: string, value: string)

  /** `files.forEach(file => formData.append("images", file))`. */
  function ImageFields(files: seq<ImageFile>): (fields: seq<FormField>)
    ensures |fields| == |files|
    ensures forall i :: 0 <= i < |files| ==> fields[i] == FileField("images", files[i])
  {
    if |files| == 0 then [] else [FileField("images", files[0])] + ImageFields(files[1..])
  }

  /** `formData.getAll("images")`: the files appended under `images`, in order. */
  function ImagesOf(fields: seq<FormField>): seq<ImageFile>
  {
    if |fields| == 0 then []
    else
      var here := if fields[0].FileField? && fields[0].name == "images" then [fields[0].file] else [];
      here + ImagesOf(fields[1..])
  }

  /** `formData.get(name)` for a text field: the first value appended under `name`. */
  function TextOf(fields: seq<FormField>, name: string): Option<string>
  {
    if |fields| == 0 then None
    else if fields[0].TextField? && fields[0].name == name then Some(fields[0].value)
    else TextOf(fields[1..], name)
  }

  lemma {:induction false} ImagesOfAppend(a: seq<FormField>, b: seq<FormField>)
    ensures ImagesOf(a + b) == ImagesOf(a) + ImagesOf(b)
  {
    if |a| == 0 {
      assert a + b == b;
    } else {
      assert (a + b)[1..] == a[1..] + b;
      ImagesOfAppend(a[1..], b);
    }
  }

  lemma {:induction false} TextOfAppend(a: seq<FormField>, b: seq<FormField>, name: string)
    ensures TextOf(a + b, name) == if TextOf(a, name).Some? then TextOf(a, name) else TextOf(b, name)
  {
    if |a| == 0 {
      assert a + b == b;
    } else {
      assert (a + b)[1..] == a[1..] + b;
      TextOfAppend(a[1..], b, name);
    }
  }

  /** Reading the `images` fields back gives exactly the appended files, and they hide no
      text field. */
  lemma {:induction false} ImageFieldsReadBack(files: seq<ImageFile>, name: string)
    ensures ImagesOf(ImageFields(files)) == files
    ensures TextOf(ImageFields(files), name).None?
  {
    if |files| > 0 {
      ImageFieldsReadBack(files[1..], name);
      assert ImageFields(files)[1..] == ImageFields(files[1..]);
    }
  }

  /** A text field adds no file and answers a lookup of its own name. */
  lemma TextFieldReadsBack(name: string, value: string, rest: seq<FormField>, key: string)
    ensures ImagesOf([TextField(name, value)] + rest) == ImagesOf(rest)
    ensures TextOf([TextField(name, value)] + rest, key) == if key == name then Some(value) else TextOf(rest, key)
  {
    assert ([TextField(name, value)] + rest)[1..] == rest;
  }

  /** `if (value) formData.append(name, value)`: an empty value adds nothing. */
  lemma OptionalFieldReadsBack(name: string, value: string, rest: seq<FormField>, key: string)
    ensures var opt := if value != "" then [TextField(name, value)] else [];
      && ImagesOf(opt + rest) == ImagesOf(rest)
      && TextOf(opt + rest, key) == if key == name && value != "" then Some(value) else TextOf(rest, key)
  {
    if value != "" {
      TextFieldReadsBack(name, value, rest, key);
    } else {
      assert [] + rest == rest;
    }
  }
}
