/** The product editor of the admin page, as the page implements it: the list
    of picked files, the list of preview URLs shown in the form, the batch
    upload, and the payload written when the form is saved. Storage uploads
    and table writes are remote; their outcomes are inputs here. */
module Admin {
  import opened Types

  /** A file picked in the browser; only its size matters to the editor. */
  datatype File = File(name: string, size: nat)

  /** Largest accepted image, in bytes (5 MiB). */
  const MaxImageBytes: nat := 5 * 1024 * 1024

  /** An entry of the preview list. Previews of an existing product are its
      stored public URLs; previews of freshly picked files are local object
      URLs that denote the file in this browser session only. */
  datatype Preview = Remote(url: string) | ObjectUrl(file: File)

  /** The product form. Prices are held already parsed: `None` stands for an
      empty text field. */
  datatype ProductForm = ProductForm(
    name: string,
    description: string,
    oldPrice: Option<int>,
    newPrice: Option<int>,
    category: string,
    isSold: bool)

  const EmptyForm := ProductForm("", "", None, None, "", false)

  /** The editor's state: the product being edited (none when creating), the
      form, whether the form is shown, the picked files and the previews.
      The two lists are updated side by side but are NOT index-aligned: the
      previews of an edited product's stored images have no file. */
  datatype Editor = Editor(
    editing: Option<Product>,
    form: ProductForm,
    showForm: bool,
    files: seq<File>,
    previews: seq<Preview>)

  /** The previews of stored URLs. */
  function Remotes(urls: seq<string>): (r: seq<Preview>)
    ensures |r| == |urls|
    ensures forall i :: 0 <= i < |urls| ==> r[i] == Remote(urls[i])
  {
    seq(|urls|, i requires 0 <= i < |urls| => Remote(urls[i]))
  }

  // ---------------------------------------------------------------------
  // Opening the form

  /** The previews shown when an existing product is opened: its image list
      when that is present and non-empty, else its legacy primary image when
      that is a non-empty string, else nothing. */
  function EditPreviews(p: Product): (r: seq<Preview>)
    ensures forall i :: 0 <= i < |r| ==> r[i].Remote?
    ensures p.imageUrls.Some? && |p.imageUrls.value| > 0 ==> r == Remotes(p.imageUrls.value)
    ensures (!(p.imageUrls.Some? && |p.imageUrls.value| > 0) && p.imageUrl.Some? && p.imageUrl.value != "")
              ==> r == [Remote(p.imageUrl.value)]
    ensures |r| == 0 <==> !(p.imageUrls.Some? && |p.imageUrls.value| > 0)
                          && !(p.imageUrl.Some? && p.imageUrl.value != "")
  {
    if p.imageUrls.Some? && |p.imageUrls.value| > 0 then Remotes(p.imageUrls.value)
    else if p.imageUrl.Some? && p.imageUrl.value != "" then [Remote(p.imageUrl.value)]
    else []
  }

  /** The form filled from a product; absent text fields become empty. */
  function FormOf(p: Product): (f: ProductForm)
    ensures f.name == p.name && f.isSold == p.isSold
    ensures f.oldPrice == p.oldPrice && f.newPrice == Some(p.newPrice)
    ensures p.description.Some? ==> f.description == p.description.value
    ensures p.description.None? ==> f.description == ""
    ensures p.category.Some? ==> f.category == p.category.value
    ensures p.category.None? ==> f.category == ""
  {
    ProductForm(p.name, p.description.GetOr(""), p.oldPrice, Some(p.newPrice),
                p.category.GetOr(""), p.isSold)
  }

  /** `openEdit`: previews come from the product, the file list is emptied. */
  function OpenEdit(s: Editor, p: Product): (r: Editor)
    ensures r.editing == Some(p) && r.showForm
    ensures r.form == FormOf(p)
    ensures r.files == []
    ensures r.previews == EditPreviews(p)
  {
    Editor(Some(p), FormOf(p), true, [], EditPreviews(p))
  }

  /** `openNew`: an empty form with no files and no previews. */
  function OpenNew(s: Editor): (r: Editor)
    ensures r.editing.None? && r.showForm && r.form == EmptyForm
    ensures r.files == [] && r.previews == []
  {
    Editor(None, EmptyForm, true, [], [])
  }

  // ---------------------------------------------------------------------
  // Picking, removing and clearing images

  lemma AppendAssociates<T>(x: seq<T>, y: seq<T>, z: seq<T>)
    ensures x + (y + z) == (x + y) + z
  {
  }

  predicate WithinLimit(f: File)
  {
    f.size <= MaxImageBytes
  }

  /** The picked files that are not too large, in their original order. */
  function ValidFiles(files: seq<File>): (r: seq<File>)
    ensures |r| <= |files|
    ensures forall f :: f in r ==> f in files && WithinLimit(f)
    ensures forall f :: f in files && WithinLimit(f) ==> f in r
    ensures |r| == |files| <==> forall i :: 0 <= i < |files| ==> WithinLimit(files[i])
  {
    if files == [] then []
    else (if WithinLimit(files[0]) then [files[0]] else []) + ValidFiles(files[1..])
  }

  /** Filtering a concatenation filters each part: the kept files keep their
      relative order, and a dropped file does not affect the others. */
  lemma {:induction false} ValidFilesAppend(a: seq<File>, b: seq<File>)
    ensures ValidFiles(a + b) == ValidFiles(a) + ValidFiles(b)
  {
    if a == [] {
      assert a + b == b;
    } else {
      var h := if WithinLimit(a[0]) then [a[0]] else [];
      assert (a + b)[1..] == a[1..] + b;
      ValidFilesAppend(a[1..], b);
      AppendAssociates(h, ValidFiles(a[1..]), ValidFiles(b));
    }
  }

  /** The outcome of `handleImageUpload`: the new editor state and whether the
      "some images were skipped" error was shown. */
  datatype Picked = Picked(editor: Editor, skippedWarning: bool)

  /** `handleImageUpload`: the valid files are appended to the file list and
      one object-URL preview per valid file is appended to the previews. */
  function HandleImageUpload(s: Editor, selected: seq<File>): (r: Picked)
    ensures r.skippedWarning <==> exists i :: 0 <= i < |selected| && !WithinLimit(selected[i])
    ensures r.editor.files == s.files + ValidFiles(selected)
    ensures |r.editor.previews| == |s.previews| + |ValidFiles(selected)|
    ensures r.editor.previews[..|s.previews|] == s.previews
    ensures forall j :: 0 <= j < |ValidFiles(selected)| ==>
              r.editor.previews[|s.previews| + j] == ObjectUrl(ValidFiles(selected)[j])
    ensures r.editor.editing == s.editing && r.editor.form == s.form && r.editor.showForm == s.showForm
  {
    var valid := ValidFiles(selected);
    var objectUrls := seq(|valid|, i requires 0 <= i < |valid| => ObjectUrl(valid[i]));
    Picked(s.(files := s.files + valid, previews := s.previews + objectUrls), |valid| != |selected|)
  }

  /** `xs.filter((_, i) => i !== k)`: drops the element at position `k`, if any. */
  function Without<T>(xs: seq<T>, k: int): (r: seq<T>)
    ensures |r| == if 0 <= k < |xs| then |xs| - 1 else |xs|
  {
    if xs == [] then []
    else (if k == 0 then [] else [xs[0]]) + Without(xs[1..], k - 1)
  }

  /** The index filter is deletion at one position: the elements before `k`
      stay in place, those after it move down by one, and an index outside
      the list changes nothing. */
  lemma {:induction false} WithoutDeletes<T>(xs: seq<T>, k: int)
    ensures 0 <= k < |xs| ==> Without(xs, k) == xs[..k] + xs[k + 1..]
    ensures !(0 <= k < |xs|) ==> Without(xs, k) == xs
  {
    if xs != [] {
      WithoutDeletes(xs[1..], k - 1);
      if k == 0 {
        assert xs[k + 1..] == xs[1..];
      } else if 0 < k < |xs| {
        assert xs[..k] == [xs[0]] + xs[1..][..k - 1];
        assert xs[k + 1..] == xs[1..][k..];
      } else {
        assert [xs[0]] + xs[1..] == xs;
      }
    }
  }

  /** `removeImage(k)`: position `k` is dropped from each list on its own. */
  function RemoveImage(s: Editor, k: int): (r: Editor)
    ensures 0 <= k < |s.files| ==> r.files == s.files[..k] + s.files[k + 1..]
    ensures !(0 <= k < |s.files|) ==> r.files == s.files
    ensures 0 <= k < |s.previews| ==> r.previews == s.previews[..k] + s.previews[k + 1..]
    ensures !(0 <= k < |s.previews|) ==> r.previews == s.previews
    ensures r.editing == s.editing && r.form == s.form && r.showForm == s.showForm
  {
    WithoutDeletes(s.files, k);
    WithoutDeletes(s.previews, k);
    s.(files := Without(s.files, k), previews := Without(s.previews, k))
  }

  /** `clearAllImages`. */
  function ClearAllImages(s: Editor): (r: Editor)
    ensures r.files == [] && r.previews == []
    ensures r.editing == s.editing && r.form == s.form && r.showForm == s.showForm
  {
    s.(files := [], previews := [])
  }

  // ---------------------------------------------------------------------
  // Uploading

  /** What the storage service answered for one file. */
  datatype UploadOutcome = Uploaded(publicUrl: string) | UploadFailed(message: string)

  /** An upload whose URL `uploadImages` keeps: a failure yields `null` and an
      empty URL is falsy, so both are skipped. */
  predicate Kept(o: UploadOutcome)
  {
    o.Uploaded? && o.publicUrl != ""
  }

  /** The URLs `uploadImages` returns. */
  function KeptUrls(outcomes: seq<UploadOutcome>): (r: seq<string>)
    ensures |r| <= |outcomes|
    ensures forall j :: 0 <= j < |r| ==> r[j] != "" && Uploaded(r[j]) in outcomes
    ensures |r| == 0 <==> forall i :: 0 <= i < |outcomes| ==> !Kept(outcomes[i])
  {
    if outcomes == [] then []
    else (if Kept(outcomes[0]) then [outcomes[0].publicUrl] else []) + KeptUrls(outcomes[1..])
  }

  /** The error toasts of a batch, one per failed upload, in order. */
  function UploadErrors(outcomes: seq<UploadOutcome>): (r: seq<Notice>)
    ensures |r| <= |outcomes|
    ensures forall j :: 0 <= j < |r| ==> r[j].ErrorNotice? && UploadFailed(r[j].message) in outcomes
  {
    if outcomes == [] then []
    else (if outcomes[0].UploadFailed? then [ErrorNotice(outcomes[0].message)] else [])
         + UploadErrors(outcomes[1..])
  }

  /** A failed upload does not stop the batch: the URLs of a concatenated
      batch are those of the first part followed by those of the second. */
  lemma {:induction false} KeptUrlsAppend(a: seq<UploadOutcome>, b: seq<UploadOutcome>)
    ensures KeptUrls(a + b) == KeptUrls(a) + KeptUrls(b)
  {
    if a == [] {
      assert a + b == b;
    } else {
      var h := if Kept(a[0]) then [a[0].publicUrl] else [];
      assert (a + b)[1..] == a[1..] + b;
      KeptUrlsAppend(a[1..], b);
      AppendAssociates(h, KeptUrls(a[1..]), KeptUrls(b));
    }
  }

  /** Likewise the error toasts of a concatenated batch. */
  lemma {:induction false} UploadErrorsAppend(a: seq<UploadOutcome>, b: seq<UploadOutcome>)
    ensures UploadErrors(a + b) == UploadErrors(a) + UploadErrors(b)
  {
    if a == [] {
      assert a + b == b;
    } else {
      var h := if a[0].UploadFailed? then [ErrorNotice(a[0].message)] else [];
      assert (a + b)[1..] == a[1..] + b;
      UploadErrorsAppend(a[1..], b);
      AppendAssociates(h, UploadErrors(a[1..]), UploadErrors(b));
    }
  }

  /** One more file: its URL, if kept, and its toast, if failed, come last. */
  lemma UploadOneMore(os: seq<UploadOutcome>, o: UploadOutcome)
    ensures KeptUrls(os + [o]) == KeptUrls(os) + (if Kept(o) then [o.publicUrl] else [])
    ensures UploadErrors(os + [o]) == UploadErrors(os) + (if o.UploadFailed? then [ErrorNotice(o.message)] else [])
  {
    KeptUrlsAppend(os, [o]);
    UploadErrorsAppend(os, [o]);
    assert [o][1..] == [];
  }

  /** Every failed upload of the batch is reported with its own message, and
      there is no toast at all exactly when no upload failed. */
  lemma {:induction false} EveryFailureReported(outcomes: seq<UploadOutcome>)
    ensures forall i :: 0 <= i < |outcomes| && outcomes[i].UploadFailed? ==>
              ErrorNotice(outcomes[i].message) in UploadErrors(outcomes)
    ensures UploadErrors(outcomes) == [] <==> forall i :: 0 <= i < |outcomes| ==> !outcomes[i].UploadFailed?
  {
    if outcomes != [] {
      EveryFailureReported(outcomes[1..]);
      var rest := UploadErrors(outcomes[1..]);
      assert UploadErrors(outcomes) == (if outcomes[0].UploadFailed? then [ErrorNotice(outcomes[0].message)] else []) + rest;
      forall i | 1 <= i < |outcomes|
        ensures outcomes[i] == outcomes[1..][i - 1]
      {
      }
    }
  }

  /** Three files, the second failing: the first and third URLs, in order,
      and one error. */
  lemma MiddleFailureExample(u1: string, m: string, u3: string)
    requires u1 != "" && u3 != ""
    ensures KeptUrls([Uploaded(u1), UploadFailed(m), Uploaded(u3)]) == [u1, u3]
    ensures UploadErrors([Uploaded(u1), UploadFailed(m), Uploaded(u3)]) == [ErrorNotice(m)]
  {
    var last := [Uploaded(u3)];
    assert last[1..] == [];
    assert KeptUrls(last) == [u3] && UploadErrors(last) == [];
    var tail := [UploadFailed(m), Uploaded(u3)];
    assert tail[1..] == last;
    assert KeptUrls(tail) == [u3] && UploadErrors(tail) == [ErrorNotice(m)];
    var os := [Uploaded(u1), UploadFailed(m), Uploaded(u3)];
    assert os[1..] == tail;
  }

  /** `uploadImages`: uploads the files one after the other, keeping each
      returned URL and reporting each failure, without stopping. */
  method UploadImages(outcomes: seq<UploadOutcome>) returns (urls: seq<string>, errors: seq<Notice>)
    ensures urls == KeptUrls(outcomes)
    ensures errors == UploadErrors(outcomes)
  {
    urls := [];
    errors := [];
    var i := 0;
    while i < |outcomes|
      invariant 0 <= i <= |outcomes|
      invariant urls == KeptUrls(outcomes[..i])
      invariant errors == UploadErrors(outcomes[..i])
    {
      var o := outcomes[i];
      assert outcomes[..i + 1] == outcomes[..i] + [o];
      UploadOneMore(outcomes[..i], o);
      match o {
        case Uploaded(u) =>
          if u != "" {
            urls := urls + [u];
          }
        case UploadFailed(m) =>
          errors := errors + [ErrorNotice(m)];
      }
      i := i + 1;
    }
    assert outcomes[..i] == outcomes;
  }

  // ---------------------------------------------------------------------
  // Saving

  /** The row written to the `products` table. Image entries are the preview
      entries as they stand, so an object URL is written as its local URL. */
  datatype Payload = Payload(
    name: string,
    description: Option<string>,
    oldPrice: Option<int>,
    newPrice: Option<int>,
    category: Option<string>,
    isSold: bool,
    imageUrl: Option<Preview>,
    imageUrls: seq<Preview>)

  datatype Write = Insert(payload: Payload) | Update(id: string, payload: Payload)

  datatype WriteOutcome = WriteOk | WriteFailed(message: string)

  /** The outcome of `handleSave`: the editor afterwards, the write issued
      (none when the save aborted) and the toasts shown. */
  datatype Saved = Saved(editor: Editor, write: Option<Write>, notices: seq<Notice>)

  /** An empty text field is sent as `null`. */
  function NullIfEmpty(t: string): (r: Option<string>)
    ensures r.None? <==> t == ""
    ensures r.Some? ==> r.value == t
  {
    if t == "" then None else Some(t)
  }

  /** The payload built from the form and the combined image list. */
  function PayloadOf(f: ProductForm, images: seq<Preview>): (p: Payload)
    ensures p.name == f.name && p.isSold == f.isSold
    ensures p.oldPrice == f.oldPrice && p.newPrice == f.newPrice
    ensures p.description == NullIfEmpty(f.description) && p.category == NullIfEmpty(f.category)
    ensures p.imageUrls == images
    ensures p.imageUrl.None? <==> |images| == 0
    ensures p.imageUrl.Some? ==> p.imageUrl.value == images[0]
  {
    Payload(f.name, NullIfEmpty(f.description), f.oldPrice, f.newPrice,
            NullIfEmpty(f.category), f.isSold,
            if |images| > 0 then Some(images[0]) else None, images)
  }

  /** The toast for a finished write: the table's message on failure, and on
      success a confirmation that names an update exactly when a product was
      being edited. */
  function WriteNotice(s: Editor, w: WriteOutcome): (n: Notice)
    ensures n.ErrorNotice? <==> w.WriteFailed?
    ensures w.WriteFailed? ==> n.message == w.message
    ensures w.WriteOk? ==> n.message in {"Product updated", "Product created"}
    ensures w.WriteOk? ==> (n.message == "Product updated" <==> s.editing.Some?)
  {
    match w
    case WriteFailed(m) => ErrorNotice(m)
    case WriteOk => SuccessNotice(if s.editing.Some? then "Product updated" else "Product created")
  }

  /** `handleSave`, given the storage answer for each picked file and the
      table's answer to the write. */
  function Save(s: Editor, uploads: seq<UploadOutcome>, w: WriteOutcome): (r: Saved)
    requires |uploads| == |s.files|
    ensures r.write.None? <==> |s.files| > 0 && forall i :: 0 <= i < |uploads| ==> !Kept(uploads[i])
    ensures r.write.None? ==> r.editor == s && r.notices == UploadErrors(uploads)
    ensures r.write.Some? ==> r.write.value.payload == PayloadOf(s.form, s.previews + Remotes(KeptUrls(uploads)))
    ensures r.write.Some? ==> (r.write.value.Update? <==> s.editing.Some?)
    ensures r.write.Some? && s.editing.Some? ==> r.write.value.id == s.editing.value.id
    ensures r.write.Some? ==> r.editor == s.(showForm := false, files := [], previews := [])
    ensures r.write.Some? ==> r.notices == UploadErrors(uploads) + [WriteNotice(s, w)]
  {
    var newUrls := if |s.files| > 0 then KeptUrls(uploads) else [];
    var errors := if |s.files| > 0 then UploadErrors(uploads) else [];
    if |s.files| > 0 && |newUrls| == 0 then
      Saved(s, None, errors)
    else
      var payload := PayloadOf(s.form, s.previews + Remotes(newUrls));
      var write := if s.editing.Some? then Update(s.editing.value.id, payload) else Insert(payload);
      Saved(s.(showForm := false, files := [], previews := []), Some(write), errors + [WriteNotice(s, w)])
  }

  /** Whatever the table answers, a save that was not aborted closes the form
      and empties both lists; the answer only decides the toast. */
  lemma SaveOutcomeOnlyChangesNotice(s: Editor, uploads: seq<UploadOutcome>, w1: WriteOutcome, w2: WriteOutcome)
    requires |uploads| == |s.files|
    ensures Save(s, uploads, w1).editor == Save(s, uploads, w2).editor
    ensures Save(s, uploads, w1).write == Save(s, uploads, w2).write
  {
  }

  /** Opening a product and saving it without touching the form or the images
      writes back the product's own fields as an update of that product; only
      an empty description or category comes back as `null`. */
  lemma EditThenSaveRoundTrip(s: Editor, p: Product, w: WriteOutcome)
    requires p.description != Some("") && p.category != Some("")
    ensures var r := Save(OpenEdit(s, p), [], w);
            && r.write.Some? && r.write.value == Update(p.id, r.write.value.payload)
            && r.write.value.payload.name == p.name
            && r.write.value.payload.description == p.description
            && r.write.value.payload.oldPrice == p.oldPrice
            && r.write.value.payload.newPrice == Some(p.newPrice)
            && r.write.value.payload.category == p.category
            && r.write.value.payload.isSold == p.isSold
            && r.write.value.payload.imageUrls == EditPreviews(p)
  {
    assert EditPreviews(p) + Remotes([]) == EditPreviews(p);
  }
}
