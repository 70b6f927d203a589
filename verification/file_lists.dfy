/**
 * The list of files a form holds before submitting: files are appended as
 * they are chosen or dropped, and removed by position (the admin pages) or
 * by identity (the drop-zone uploader). Each chosen file gets an object URL
 * for its preview; `URL.createObjectURL` never hands out the same URL twice,
 * so the preview handle is what tells two selections of the same file apart.
 */
module FileLists {
  import opened Options
  import opened Rows

  /** One entry of the list: the file and its preview handle. */
  datatype Selected = Selected(file: File, preview: nat)

  /** The list together with the next preview handle the browser will issue. */
  datatype Selection = Selection(items: seq<Selected>, nextPreview: nat)

  /** Every handle in the list was issued before `nextPreview`, and no two entries share one. */
  predicate WellHandled(s: Selection) {
    && (forall i :: 0 <= i < |s.items| ==> s.items[i].preview < s.nextPreview)
    && Distinct(s.items)
  }

  /** No two entries share a preview handle. */
  predicate Distinct(items: seq<Selected>) {
    forall i, j :: 0 <= i < j < |items| ==> items[i].preview != items[j].preview
  }

  /** The new entries for `files`, with handles `next`, `next + 1`, ... */
  function Previews(files: seq<File>, next: nat): (r: seq<Selected>)
    ensures |r| == |files|
    ensures forall k :: 0 <= k < |files| ==> r[k] == Selected(files[k], next + k)
  {
    if files == [] then [] else [Selected(files[0], next)] + Previews(files[1..], next + 1)
  }

  /**
   * `handleFileSelect` of both admin pages and `onDrop` of the uploader:
   * `[...prev, ...newPreviews]`.
   */
  function Select(s: Selection, files: seq<File>): (r: Selection)
    ensures |r.items| == |s.items| + |files|
    ensures r.items[..|s.items|] == s.items
    ensures forall k :: 0 <= k < |files| ==> r.items[|s.items| + k].file == files[k]
  {
    Selection(s.items + Previews(files, s.nextPreview), s.nextPreview + |files|)
  }

  /** Appending keeps handles unique: the new ones are fresh. */
  lemma SelectWellHandled(s: Selection, files: seq<File>)
    requires WellHandled(s)
    ensures WellHandled(Select(s, files))
  {
    var r := Select(s, files);
    forall i | 0 <= i < |r.items|
      ensures r.items[i].preview < r.nextPreview
      ensures i >= |s.items| ==> r.items[i].preview == s.nextPreview + (i - |s.items|)
    {
      if i < |s.items| {
        assert r.items[i] == s.items[i];
      } else {
        assert r.items[i] == Previews(files, s.nextPreview)[i - |s.items|];
      }
    }
  }

  /**
   * `handleRemoveFile(index)`: `splice(index, 1)` on a copy. Reading
   * `newFiles[index].preview` throws for a position outside the list, so
   * such a call yields no list (`None`).
   */
  function RemoveAt(items: seq<Selected>, index: int): (r: Option<seq<Selected>>)
    ensures r.Some? <==> 0 <= index < |items|
    ensures r.Some? ==> |r.value| == |items| - 1
    ensures r.Some? ==> forall j :: 0 <= j < index ==> r.value[j] == items[j]
    ensures r.Some? ==> forall j :: index <= j < |r.value| ==> r.value[j] == items[j + 1]
  {
    if 0 <= index < |items| then Some(items[..index] + items[index + 1..]) else None
  }

  /** Removing an entry keeps every other entry, and only that one goes. */
  lemma RemoveAtMultiset(items: seq<Selected>, index: int)
    requires 0 <= index < |items|
    ensures multiset(RemoveAt(items, index).value) + multiset{items[index]} == multiset(items)
  {
    assert items == items[..index] + [items[index]] + items[index + 1..];
  }

  /** Removing the entry a selection of one file just added gives back the list before. */
  lemma SelectThenRemove(s: Selection, f: File)
    ensures RemoveAt(Select(s, [f]).items, |s.items|) == Some(s.items)
  {
    var r := Select(s, [f]).items;
    assert |r| == |s.items| + 1;
    assert r[..|s.items|] == s.items;
    assert r[|s.items| + 1..] == [];
    assert r[..|s.items|] + r[|s.items| + 1..] == s.items;
  }

  /** The uploader's `files.filter(file => file !== fileToRemove)`. */
  function Without(items: seq<Selected>, gone: Selected): (r: seq<Selected>)
    ensures |r| <= |items|
    ensures forall j :: 0 <= j < |r| ==> r[j].preview != gone.preview
  {
    if items == [] then []
    else if items[0].preview == gone.preview then Without(items[1..], gone)
    else [items[0]] + Without(items[1..], gone)
  }

  /** Exactly the entries with another handle stay. */
  lemma {:induction false} WithoutContents(items: seq<Selected>, gone: Selected, x: Selected)
    ensures x in Without(items, gone) <==> x in items && x.preview != gone.preview
  {
    if items != [] {
      WithoutContents(items[1..], gone, x);
      assert items == [items[0]] + items[1..];
    }
  }

  /** Removing an entry that is not in the list changes nothing. */
  lemma {:induction false} WithoutAbsent(items: seq<Selected>, gone: Selected)
    requires forall j :: 0 <= j < |items| ==> items[j].preview != gone.preview
    ensures Without(items, gone) == items
  {
    if items != [] {
      WithoutAbsent(items[1..], gone);
      assert items == [items[0]] + items[1..];
    }
  }

  /**
   * With handles told apart, removing by identity and removing by position
   * agree: the uploader's `removeFile` on the entry at `index` is the
   * admin pages' `handleRemoveFile(index)`.
   */
  lemma {:induction false} WithoutIsRemoveAt(items: seq<Selected>, index: nat)
    requires index < |items|
    requires Distinct(items)
    ensures Without(items, items[index]) == RemoveAt(items, index).value
  {
    var gone := items[index];
    var tail := items[1..];
    if index == 0 {
      assert forall j :: 0 <= j < |tail| ==> tail[j] == items[j + 1];
      WithoutAbsent(tail, gone);
    } else {
      assert items[0].preview != gone.preview;
      assert Distinct(tail) by {
        forall i, j | 0 <= i < j < |tail| ensures tail[i].preview != tail[j].preview {
          assert tail[i] == items[i + 1] && tail[j] == items[j + 1];
        }
      }
      WithoutIsRemoveAt(tail, index - 1);
      assert tail[index - 1] == gone;
      assert Without(items, gone) == [items[0]] + (tail[..index - 1] + tail[index..]);
      assert items[..index] == [items[0]] + tail[..index - 1];
      assert items[index + 1..] == tail[index..];
    }
  }
}
