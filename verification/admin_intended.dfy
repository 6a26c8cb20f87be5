/** The product editor as the page evidently intends it: the previews are the
    stored images of the product followed by one local preview per picked
    file, a removed preview takes its own file with it, and a save writes the
    stored images followed by the uploaded ones. Two operations of the page
    depart from this; each departure is exhibited on a concrete input, and a
    corrected operation is given and proved to keep the description. The
    intent is read from `removeImage` revoking a preview's object URL only
    when its index is below the number of picked files (src/pages/Admin.tsx,
    line 113), and from the comment on the saved image list, which says the
    previews might be existing images (line 141). */
module AdminIntended {
  import opened Types
  import opened Admin

  /** The relation between the two lists: the first `|previews| - |files|`
      previews are stored URLs, and the rest are the object URLs of the
      picked files, in the same order. */
  predicate Aligned(s: Editor)
  {
    && |s.files| <= |s.previews|
    && (forall i :: 0 <= i < |s.previews| - |s.files| ==> s.previews[i].Remote?)
    && (forall j :: 0 <= j < |s.files| ==> s.previews[|s.previews| - |s.files| + j] == ObjectUrl(s.files[j]))
  }

  /** Number of stored previews in front of the local ones. */
  function StoredCount(s: Editor): int
  {
    |s.previews| - |s.files|
  }

  // ---------------------------------------------------------------------
  // The operations of the page that keep the relation

  lemma OpenEditAligned(s: Editor, p: Product)
    ensures Aligned(OpenEdit(s, p))
  {
  }

  lemma OpenNewAligned(s: Editor)
    ensures Aligned(OpenNew(s))
  {
  }

  lemma ClearAllImagesAligned(s: Editor)
    ensures Aligned(ClearAllImages(s))
  {
  }

  /** Picking files appends each valid file and its object URL at the end of
      the two lists, which keeps them related. */
  lemma HandleImageUploadAligned(s: Editor, selected: seq<File>)
    requires Aligned(s)
    ensures Aligned(HandleImageUpload(s, selected).editor)
  {
    var r := HandleImageUpload(s, selected).editor;
    var valid := ValidFiles(selected);
    assert StoredCount(r) == StoredCount(s);
    forall i | 0 <= i < StoredCount(r)
      ensures r.previews[i].Remote?
    {
      assert r.previews[i] == r.previews[..|s.previews|][i];
    }
    forall j | 0 <= j < |r.files|
      ensures r.previews[StoredCount(r) + j] == ObjectUrl(r.files[j])
    {
      if j < |s.files| {
        assert r.previews[StoredCount(r) + j] == r.previews[..|s.previews|][StoredCount(s) + j];
      } else {
        assert r.files[j] == valid[j - |s.files|];
        assert StoredCount(r) + j == |s.previews| + (j - |s.files|);
      }
    }
  }

  // ---------------------------------------------------------------------
  // Removing one image

  /** On the page, removing the preview of a stored image also removes the
      picked file at the same index: editing a product with one stored image
      and picking one file, then removing the stored image, drops the file
      while its local preview stays behind, and the next save writes that
      local URL without uploading the file. */
  lemma RemoveImageMisaligned(p: Product, f: File, w: WriteOutcome)
    ensures var s := Editor(Some(p), EmptyForm, true, [f], [Remote("stored"), ObjectUrl(f)]);
            var r := RemoveImage(s, 0);
            && Aligned(s)
            && r.files == []
            && r.previews == [ObjectUrl(f)]
            && !Aligned(r)
            && Save(r, [], w).write.Some?
            && Save(r, [], w).write.value.payload.imageUrls == [ObjectUrl(f)]
  {
    var s := Editor(Some(p), EmptyForm, true, [f], [Remote("stored"), ObjectUrl(f)]);
    var r := RemoveImage(s, 0);
    assert s.previews[1..] == [ObjectUrl(f)];
    assert r.previews == [ObjectUrl(f)];
    assert !r.previews[0].Remote?;
    assert [ObjectUrl(f)] + Remotes(KeptUrls([])) == [ObjectUrl(f)];
  }

  /** Removing preview `k`: the preview goes, and when it is the preview of a
      picked file, that file goes with it. */
  function RemoveImageIntended(s: Editor, k: int): (r: Editor)
    ensures 0 <= k < |s.previews| ==> r.previews == s.previews[..k] + s.previews[k + 1..]
    ensures !(0 <= k < |s.previews|) ==> r == s
    ensures Aligned(s) && 0 <= k < StoredCount(s) ==> r.files == s.files
    ensures Aligned(s) && StoredCount(s) <= k < |s.previews| ==>
              r.files == s.files[..k - StoredCount(s)] + s.files[k - StoredCount(s) + 1..]
    ensures Aligned(s) ==> Aligned(r)
    ensures r.editing == s.editing && r.form == s.form && r.showForm == s.showForm
  {
    var offset := StoredCount(s);
    WithoutDeletes(s.previews, k);
    WithoutDeletes(s.files, k - offset);
    if 0 <= k < |s.previews| then
      var r := s.(previews := Without(s.previews, k),
                  files := if k >= offset then Without(s.files, k - offset) else s.files);
      RemovePreservesAligned(s, k, r);
      r
    else s
  }

  lemma RemovePreservesAligned(s: Editor, k: int, r: Editor)
    requires 0 <= k < |s.previews|
    requires r.previews == s.previews[..k] + s.previews[k + 1..]
    requires k >= StoredCount(s) && 0 <= k - StoredCount(s) < |s.files| ==>
               r.files == s.files[..k - StoredCount(s)] + s.files[k - StoredCount(s) + 1..]
    requires k < StoredCount(s) ==> r.files == s.files
    ensures Aligned(s) ==> Aligned(r)
  {
    if Aligned(s) {
      var offset := StoredCount(s);
      if k < offset {
        assert StoredCount(r) == offset - 1;
        forall i | 0 <= i < StoredCount(r)
          ensures r.previews[i].Remote?
        {
          if i < k {
            assert r.previews[i] == s.previews[i];
          } else {
            assert r.previews[i] == s.previews[i + 1];
          }
        }
        forall j | 0 <= j < |r.files|
          ensures r.previews[StoredCount(r) + j] == ObjectUrl(r.files[j])
        {
          assert r.previews[StoredCount(r) + j] == s.previews[offset + j];
        }
      } else {
        var m := k - offset;
        assert StoredCount(r) == offset;
        forall i | 0 <= i < StoredCount(r)
          ensures r.previews[i].Remote?
        {
          assert r.previews[i] == s.previews[i];
        }
        forall j | 0 <= j < |r.files|
          ensures r.previews[StoredCount(r) + j] == ObjectUrl(r.files[j])
        {
          if j < m {
            assert r.previews[offset + j] == s.previews[offset + j];
            assert r.files[j] == s.files[j];
          } else {
            assert r.previews[offset + j] == s.previews[offset + j + 1];
            assert r.files[j] == s.files[j + 1];
          }
        }
      }
    }
  }

  /** With no stored previews in front (a new product), the page's removal
      already is the intended one. */
  lemma RemoveImageAgreesWithoutStoredImages(s: Editor, k: int)
    requires Aligned(s) && StoredCount(s) == 0
    ensures RemoveImageIntended(s, k) == RemoveImage(s, k)
  {
    WithoutDeletes(s.files, k);
    WithoutDeletes(s.previews, k);
  }

  // ---------------------------------------------------------------------
  // Saving

  /** On the page, a save writes every preview, so the object URL of a file
      picked for a new product is written in front of that file's uploaded
      URL and becomes the product's primary image. */
  lemma {:induction false} SaveWritesObjectUrl(s0: Editor, f: File, u: string, w: WriteOutcome)
    requires WithinLimit(f) && u != ""
    ensures var s := HandleImageUpload(OpenNew(s0), [f]).editor;
            var r := Save(s, [Uploaded(u)], w);
            && s.files == [f]
            && r.write.Some?
            && r.write.value.payload.imageUrls == [ObjectUrl(f), Remote(u)]
            && r.write.value.payload.imageUrl == Some(ObjectUrl(f))
  {
    assert [f][1..] == [];
    assert ValidFiles([f]) == [f];
    var s := HandleImageUpload(OpenNew(s0), [f]).editor;
    assert s.previews == [ObjectUrl(f)];
    var os := [Uploaded(u)];
    assert os[1..] == [];
    assert KeptUrls(os) == [u];
    assert s.previews + Remotes([u]) == [ObjectUrl(f), Remote(u)];
  }

  /** The stored previews of a list, in order. */
  function StoredOnly(ps: seq<Preview>): (r: seq<Preview>)
    ensures |r| <= |ps|
    ensures forall i :: 0 <= i < |r| ==> r[i].Remote?
  {
    if ps == [] then []
    else (if ps[0].Remote? then [ps[0]] else []) + StoredOnly(ps[1..])
  }

  lemma {:induction false} StoredOnlyAppend(a: seq<Preview>, b: seq<Preview>)
    ensures StoredOnly(a + b) == StoredOnly(a) + StoredOnly(b)
  {
    if a == [] {
      assert a + b == b;
    } else {
      assert (a + b)[1..] == a[1..] + b;
      StoredOnlyAppend(a[1..], b);
    }
  }

  /** A list of stored previews is its own stored part; a list of local
      previews has none. */
  lemma {:induction false} StoredOnlyOfUniform(ps: seq<Preview>)
    ensures (forall i :: 0 <= i < |ps| ==> ps[i].Remote?) ==> StoredOnly(ps) == ps
    ensures (forall i :: 0 <= i < |ps| ==> ps[i].ObjectUrl?) ==> StoredOnly(ps) == []
  {
    if ps != [] {
      StoredOnlyOfUniform(ps[1..]);
      assert forall i :: 0 <= i < |ps[1..]| ==> ps[1..][i] == ps[i + 1];
      assert [ps[0]] + ps[1..] == ps;
    }
  }

  /** Under the relation, the stored previews are exactly the leading ones. */
  lemma StoredOnlyOfAligned(s: Editor)
    ensures Aligned(s) ==> StoredOnly(s.previews) == s.previews[..StoredCount(s)]
  {
    if !Aligned(s) {
      return;
    }
    var offset := StoredCount(s);
    var front := s.previews[..offset];
    var back := s.previews[offset..];
    assert s.previews == front + back;
    StoredOnlyAppend(front, back);
    StoredOnlyOfUniform(front);
    forall j | 0 <= j < |back|
      ensures back[j].ObjectUrl?
    {
      assert back[j] == s.previews[offset + j] == ObjectUrl(s.files[j]);
    }
    StoredOnlyOfUniform(back);
  }

  /** `handleSave` writing the stored images followed by the uploaded ones.
      The abort rule, the closing of the form and the toasts are the page's. */
  function SaveIntended(s: Editor, uploads: seq<UploadOutcome>, w: WriteOutcome): (r: Saved)
    requires |uploads| == |s.files|
    ensures r.write.None? <==> Save(s, uploads, w).write.None?
    ensures r.editor == Save(s, uploads, w).editor
    ensures r.notices == Save(s, uploads, w).notices
    ensures r.write.Some? ==> forall i :: 0 <= i < |r.write.value.payload.imageUrls| ==>
              r.write.value.payload.imageUrls[i].Remote?
    ensures r.write.Some? && Aligned(s) ==>
              r.write.value.payload.imageUrls == s.previews[..StoredCount(s)] + Remotes(KeptUrls(uploads))
    ensures r.write.Some? ==> r.write.value.payload == PayloadOf(s.form, StoredOnly(s.previews) + Remotes(KeptUrls(uploads)))
    ensures r.write.Some? ==> (r.write.value.Update? <==> s.editing.Some?)
    ensures r.write.Some? && s.editing.Some? ==> r.write.value.id == s.editing.value.id
  {
    var newUrls := if |s.files| > 0 then KeptUrls(uploads) else [];
    var errors := if |s.files| > 0 then UploadErrors(uploads) else [];
    if |s.files| > 0 && |newUrls| == 0 then
      Saved(s, None, errors)
    else
      var images := StoredOnly(s.previews) + Remotes(newUrls);
      StoredOnlyOfAligned(s);
      var payload := PayloadOf(s.form, images);
      var write := if s.editing.Some? then Update(s.editing.value.id, payload) else Insert(payload);
      Saved(s.(showForm := false, files := [], previews := []), Some(write), errors + [WriteNotice(s, w)])
  }

  /** When no file was picked, the intended save and the page's save agree,
      so editing a product and saving it unchanged is unaffected. */
  lemma SaveAgreesWithoutPickedFiles(s: Editor, w: WriteOutcome)
    requires Aligned(s) && s.files == []
    ensures SaveIntended(s, [], w) == Save(s, [], w)
  {
    StoredOnlyOfAligned(s);
    assert s.previews[..StoredCount(s)] == s.previews;
  }

  /** The two-operation counterexample above, replayed with the intended
      removal: the file goes with its preview and nothing local is written. */
  lemma IntendedRemoveKeepsPickedFile(p: Product, f: File, w: WriteOutcome)
    ensures var s := Editor(Some(p), EmptyForm, true, [f], [Remote("stored"), ObjectUrl(f)]);
            var r := RemoveImageIntended(s, 0);
            && r.files == [f]
            && r.previews == [ObjectUrl(f)]
            && Aligned(r)
  {
    var s := Editor(Some(p), EmptyForm, true, [f], [Remote("stored"), ObjectUrl(f)]);
    assert Aligned(s);
    assert s.previews[1..] == [ObjectUrl(f)];
  }
}
