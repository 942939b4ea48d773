/** The admin screen that manages the info cards: a working list that can be reordered,
    extended with local files and trimmed, a dirty flag against the last loaded list, and
    a save that deletes, uploads and then writes the whole list in one batch. */
module InfoCards {
  import opened Wrappers
  import opened Catalog
  import opened Seqs
  import opened InfoPictureStore

  /** A card on screen: the stored fields (any may be absent; `""` stands for a missing
      id or label), the local file behind a new card, and whether it is new and local. */
  datatype DisplayImage = DisplayImage(
    id: string,
    imageUrl: Option<string>,
    kind: string,
    isActive: Option<bool>,
    order: Option<int>,
    insertDate: Option<int>,
    updateDate: Option<int>,
    file: Option<FileRef>,
    isNewLocal: bool)

  /** A stored picture as `loadImages` shows it. */
  function Loaded(p: InfoPicture): DisplayImage {
    DisplayImage(p.id, Some(p.imageUrl), p.kind, Some(p.isActive), Some(p.order),
                 p.insertDate, p.updateDate, None, false)
  }

  /** A picked file as `onFileSelected` shows it: new, local, active, labelled with the
      file name. */
  function NewLocalEntry(f: FileRef): DisplayImage {
    DisplayImage("", None, f.name, Some(true), None, None, None, Some(f), true)
  }

  /** `hasChanges`. `baseline` is the list as last loaded, `None` before the first load. */
  predicate Changed(images: seq<DisplayImage>, deletedIds: seq<string>, baseline: Option<seq<DisplayImage>>): (r: bool)
    ensures (exists i :: 0 <= i < |images| && images[i].isNewLocal) ==> r
    ensures deletedIds != [] ==> r
    ensures baseline.None? ==> r
    ensures !r <==> (forall i :: 0 <= i < |images| ==> !images[i].isNewLocal)
                    && deletedIds == [] && baseline == Some(images)
  {
    (exists i :: 0 <= i < |images| && images[i].isNewLocal) || |deletedIds| > 0 || baseline != Some(images)
  }

  /** `Math.max(0, Math.min(max, value))`. */
  function Clamp(value: int, max: int): int {
    if value > max then (if max < 0 then 0 else max) else if value < 0 then 0 else value
  }

  /** `moveItemInArray`: both indices are clamped into the list, then the item at `from`
      is taken out and put back so that it lands at `to`. */
  function Move<T>(s: seq<T>, from: int, to: int): (r: seq<T>)
    ensures |r| == |s| && multiset(r) == multiset(s)
    ensures s != [] ==> r[Clamp(to, |s| - 1)] == s[Clamp(from, |s| - 1)]
    ensures s != [] ==> RemoveAt(r, Clamp(to, |s| - 1)) == RemoveAt(s, Clamp(from, |s| - 1))
  {
    if s == [] then s
    else
      var f, t := Clamp(from, |s| - 1), Clamp(to, |s| - 1);
      if f == t then
        assert s == InsertAt(RemoveAt(s, f), f, s[f]) by { InsertRemoved(s, f); }
        s
      else
        MultisetRemoveAt(s, f);
        MultisetInsertAt(RemoveAt(s, f), t, s[f]);
        InsertAt(RemoveAt(s, f), t, s[f])
  }

  lemma InsertRemoved<T>(s: seq<T>, k: nat)
    requires k < |s|
    ensures InsertAt(RemoveAt(s, k), k, s[k]) == s
  {
    assert s == s[..k] + [s[k]] + s[k + 1..];
  }

  /** Dragging an item back to where it came from restores the list. */
  lemma MoveBack<T>(s: seq<T>, from: nat, to: nat)
    requires from < |s| && to < |s|
    ensures Move(Move(s, from, to), to, from) == s
  {
    if from != to {
      InsertRemoved(s, from);
    }
  }

  /** A list just loaded is clean, and dragging an item away and back keeps it clean. */
  lemma CleanAfterLoadAndMoveBack(data: seq<InfoPicture>, from: nat, to: nat)
    requires from < |data| && to < |data|
    ensures var images := Map(data, Loaded);
            !Changed(images, [], Some(images))
            && !Changed(Move(Move(images, from, to), to, from), [], Some(images))
  {
    MoveBack(Map(data, Loaded), from, to);
  }

  /** A new local card always makes the list dirty. */
  lemma NewLocalMakesDirty(images: seq<DisplayImage>, files: seq<FileRef>, deletedIds: seq<string>, baseline: Option<seq<DisplayImage>>)
    requires files != []
    ensures Changed(images + Map(files, NewLocalEntry), deletedIds, baseline)
  {
    assert (images + Map(files, NewLocalEntry))[|images|].isNewLocal;
  }

  /** How an item's url is obtained on save: uploaded when it is new and has a file,
      otherwise the url it already has. */
  function ItemUrl(item: DisplayImage, upload: FileRef -> Result<string>): Result<Option<string>> {
    if item.isNewLocal && item.file.Some? then
      match upload(item.file.value)
      case Success(url) => Success(Some(url))
      case Failure(msg) => Failure(msg)
    else Success(item.imageUrl)
  }

  /** The payload entry for the item at position `i`: its id or `""`, its url, its label
      or `"Standard"`, its active flag or `true`, and `order = i`. */
  function PayloadEntry(item: DisplayImage, url: Option<string>, i: int): InfoPicture {
    InfoPicture(item.id, url.GetOr(""), KindOrDefault(item.kind), item.isActive.GetOr(true), i, None, None)
  }

  predicate UploadsSucceed(images: seq<DisplayImage>, upload: FileRef -> Result<string>) {
    forall i :: 0 <= i < |images| ==> ItemUrl(images[i], upload).Success?
  }

  /** `finalPayload` when every upload succeeds. */
  function Payload(images: seq<DisplayImage>, upload: FileRef -> Result<string>): (p: seq<InfoPicture>)
    requires UploadsSucceed(images, upload)
    ensures |p| == |images|
    ensures forall i :: 0 <= i < |p| ==> p[i].order == i && p[i].id == images[i].id
    ensures forall i :: 0 <= i < |p| ==> p[i].kind == KindOrDefault(images[i].kind)
    ensures forall i :: 0 <= i < |p| ==> p[i].isActive == images[i].isActive.GetOr(true)
    ensures forall i :: 0 <= i < |p| && images[i].isNewLocal && images[i].file.Some? ==>
              p[i].imageUrl == upload(images[i].file.value).value
    ensures forall i :: 0 <= i < |p| && !(images[i].isNewLocal && images[i].file.Some?) ==>
              p[i].imageUrl == images[i].imageUrl.GetOr("")
  {
    seq(|images|, i requires 0 <= i < |images| && UploadsSucceed(images, upload) =>
      PayloadEntry(images[i], ItemUrl(images[i], upload).value, i))
  }

  /** A call the save makes to a remote service. */
  datatype RemoteCall = DeleteDoc(id: string) | UploadImage(file: FileRef) | CommitBatch(ops: seq<BatchOp>)

  predicate DeletesSucceed(ids: seq<string>, deleteDoc: string -> Result<()>) {
    forall i :: 0 <= i < |ids| ==> deleteDoc(ids[i]).Success?
  }

  /** The deletes the save issues for `ids`: one per id, in order, up to and including
      the first that is rejected. */
  function DeleteTrace(ids: seq<string>, deleteDoc: string -> Result<()>): seq<RemoteCall> {
    if ids == [] then []
    else [DeleteDoc(ids[0])] + (if deleteDoc(ids[0]).Failure? then [] else DeleteTrace(ids[1..], deleteDoc))
  }

  /** The uploads the save issues for `images`: one per new card with a file, in list
      order, up to and including the first that is rejected. */
  function UploadTrace(images: seq<DisplayImage>, upload: FileRef -> Result<string>): seq<RemoteCall> {
    if images == [] then []
    else if images[0].isNewLocal && images[0].file.Some? then
      [UploadImage(images[0].file.value)]
      + (if upload(images[0].file.value).Failure? then [] else UploadTrace(images[1..], upload))
    else UploadTrace(images[1..], upload)
  }

  /** Every call `onSaveAll` makes once past its guard: the deletes; if all of them
      succeeded, the uploads; if all of those succeeded too, the one batch commit. */
  function SaveTrace(ids: seq<string>, images: seq<DisplayImage>,
                     deleteDoc: string -> Result<()>, upload: FileRef -> Result<string>): seq<RemoteCall> {
    DeleteTrace(ids, deleteDoc)
    + if !DeletesSucceed(ids, deleteDoc) then []
      else UploadTrace(images, upload)
           + if UploadsSucceed(images, upload) then [CommitBatch(SyncBatch(Payload(images, upload), []))] else []
  }

  lemma DeleteTraceStep(ids: seq<string>, i: nat, deleteDoc: string -> Result<()>)
    requires i < |ids|
    ensures DeleteTrace(ids[i..], deleteDoc)
            == [DeleteDoc(ids[i])] + (if deleteDoc(ids[i]).Failure? then [] else DeleteTrace(ids[i + 1..], deleteDoc))
  {
    assert ids[i..][1..] == ids[i + 1..];
  }

  /** One more delete: on success the trace continues with the next id; on failure it
      ends here and the deletes did not all succeed. */
  lemma DeleteTraceAdvance(ids: seq<string>, i: nat, deleteDoc: string -> Result<()>, calls: seq<RemoteCall>)
    requires i < |ids| && calls + DeleteTrace(ids[i..], deleteDoc) == DeleteTrace(ids, deleteDoc)
    ensures deleteDoc(ids[i]).Success? ==>
              (calls + [DeleteDoc(ids[i])]) + DeleteTrace(ids[i + 1..], deleteDoc) == DeleteTrace(ids, deleteDoc)
    ensures deleteDoc(ids[i]).Failure? ==>
              calls + [DeleteDoc(ids[i])] == DeleteTrace(ids, deleteDoc) && !DeletesSucceed(ids, deleteDoc)
  {
    var rest := DeleteTrace(ids[i..], deleteDoc);
    var next := DeleteTrace(ids[i + 1..], deleteDoc);
    DeleteTraceStep(ids, i, deleteDoc);
    if deleteDoc(ids[i]).Success? {
      assert rest == [DeleteDoc(ids[i])] + next;
      assert calls + rest == (calls + [DeleteDoc(ids[i])]) + next;
    } else {
      assert rest == [DeleteDoc(ids[i])];
    }
  }

  lemma UploadTraceStep(images: seq<DisplayImage>, k: nat, upload: FileRef -> Result<string>)
    requires k < |images|
    ensures var item := images[k];
            UploadTrace(images[k..], upload)
            == if item.isNewLocal && item.file.Some? then
                 [UploadImage(item.file.value)]
                 + (if upload(item.file.value).Failure? then [] else UploadTrace(images[k + 1..], upload))
               else UploadTrace(images[k + 1..], upload)
  {
    assert images[k..][1..] == images[k + 1..];
  }

  lemma TraceOnDeleteFailure(ids: seq<string>, images: seq<DisplayImage>,
                             deleteDoc: string -> Result<()>, upload: FileRef -> Result<string>)
    requires !DeletesSucceed(ids, deleteDoc)
    ensures SaveTrace(ids, images, deleteDoc, upload) == DeleteTrace(ids, deleteDoc)
  {
  }

  lemma TraceOnUploadFailure(ids: seq<string>, images: seq<DisplayImage>,
                             deleteDoc: string -> Result<()>, upload: FileRef -> Result<string>)
    requires DeletesSucceed(ids, deleteDoc) && !UploadsSucceed(images, upload)
    ensures SaveTrace(ids, images, deleteDoc, upload) == DeleteTrace(ids, deleteDoc) + UploadTrace(images, upload)
  {
  }

  lemma TraceOnCommit(ids: seq<string>, images: seq<DisplayImage>,
                      deleteDoc: string -> Result<()>, upload: FileRef -> Result<string>)
    requires DeletesSucceed(ids, deleteDoc) && UploadsSucceed(images, upload)
    ensures SaveTrace(ids, images, deleteDoc, upload)
            == DeleteTrace(ids, deleteDoc) + UploadTrace(images, upload) + [CommitBatch(SyncBatch(Payload(images, upload), []))]
  {
  }

  /** The files of the new cards, in list order. */
  function NewFiles(images: seq<DisplayImage>): seq<FileRef> {
    if images == [] then []
    else (if images[0].isNewLocal && images[0].file.Some? then [images[0].file.value] else [])
         + NewFiles(images[1..])
  }

  /** When every delete succeeds, each id is deleted once, in order. */
  lemma {:induction false} DeletesAllInOrder(ids: seq<string>, deleteDoc: string -> Result<()>)
    requires DeletesSucceed(ids, deleteDoc)
    ensures DeleteTrace(ids, deleteDoc) == Map(ids, id => DeleteDoc(id))
  {
    if ids != [] {
      DeletesAllInOrder(ids[1..], deleteDoc);
    }
  }

  /** When every upload succeeds, each new card's file is uploaded once, in list order. */
  lemma {:induction false} UploadsAllNewFilesInOrder(images: seq<DisplayImage>, upload: FileRef -> Result<string>)
    requires UploadsSucceed(images, upload)
    ensures UploadTrace(images, upload) == Map(NewFiles(images), f => UploadImage(f))
  {
    if images != [] {
      assert ItemUrl(images[0], upload).Success?;
      UploadsAllNewFilesInOrder(images[1..], upload);
    }
  }

  lemma {:induction false} DeleteTraceHasNoCommit(ids: seq<string>, deleteDoc: string -> Result<()>)
    ensures forall c :: c in DeleteTrace(ids, deleteDoc) ==> !c.CommitBatch?
  {
    if ids != [] {
      DeleteTraceHasNoCommit(ids[1..], deleteDoc);
    }
  }

  lemma {:induction false} UploadTraceHasNoCommit(images: seq<DisplayImage>, upload: FileRef -> Result<string>)
    ensures forall c :: c in UploadTrace(images, upload) ==> !c.CommitBatch?
  {
    if images != [] {
      UploadTraceHasNoCommit(images[1..], upload);
    }
  }

  /** The save reaches its batch commit exactly when every delete and every upload
      succeeded, and nothing before the last call is a commit. */
  lemma CommitsIffAllSucceed(ids: seq<string>, images: seq<DisplayImage>,
                             deleteDoc: string -> Result<()>, upload: FileRef -> Result<string>)
    ensures var t := SaveTrace(ids, images, deleteDoc, upload);
            (t != [] && t[|t| - 1].CommitBatch?) <==> DeletesSucceed(ids, deleteDoc) && UploadsSucceed(images, upload)
    ensures var t := SaveTrace(ids, images, deleteDoc, upload);
            forall i :: 0 <= i < |t| - 1 ==> !t[i].CommitBatch?
  {
    var d, u := DeleteTrace(ids, deleteDoc), UploadTrace(images, upload);
    DeleteTraceHasNoCommit(ids, deleteDoc);
    UploadTraceHasNoCommit(images, upload);
    var t := SaveTrace(ids, images, deleteDoc, upload);
    forall i | 0 <= i < |t| - 1
      ensures !t[i].CommitBatch?
    {
      if i < |d| {
        assert t[i] == d[i] && d[i] in d;
      } else {
        assert DeletesSucceed(ids, deleteDoc);
        assert t[i] == u[i - |d|] && u[i - |d|] in u;
      }
    }
    if t != [] && !(DeletesSucceed(ids, deleteDoc) && UploadsSucceed(images, upload)) {
      var last := t[|t| - 1];
      if DeletesSucceed(ids, deleteDoc) {
        assert t == d + u;
        assert last in d || last in u;
      } else {
        assert t == d;
        assert last in d;
      }
    }
  }

  lemma PayloadFromEntries(images: seq<DisplayImage>, upload: FileRef -> Result<string>, entries: seq<InfoPicture>)
    requires UploadsSucceed(images, upload) && |entries| == |images|
    requires forall j :: 0 <= j < |images| ==> entries[j] == PayloadEntry(images[j], ItemUrl(images[j], upload).value, j)
    ensures entries == Payload(images, upload)
  {
  }

  /** The delete phase of `onSaveAll`: each id in turn, stopping at the first rejection. */
  method DeleteAll(ids: seq<string>, deleteDoc: string -> Result<()>) returns (calls: seq<RemoteCall>, ok: bool)
    ensures calls == DeleteTrace(ids, deleteDoc)
    ensures ok <==> DeletesSucceed(ids, deleteDoc)
  {
    calls := [];
    var i := 0;
    while i < |ids|
      invariant 0 <= i <= |ids|
      invariant forall j :: 0 <= j < i ==> deleteDoc(ids[j]).Success?
      invariant calls + DeleteTrace(ids[i..], deleteDoc) == DeleteTrace(ids, deleteDoc)
    {
      DeleteTraceAdvance(ids, i, deleteDoc, calls);
      calls := calls + [DeleteDoc(ids[i])];
      if deleteDoc(ids[i]).Failure? {
        return calls, false;
      }
      i := i + 1;
    }
    ok := true;
  }

  /** The upload phase of `onSaveAll`: walks the list in order, uploading each new card's
      file, and builds the payload; stops at the first rejected upload. */
  method UploadNewFiles(images: seq<DisplayImage>, upload: FileRef -> Result<string>)
    returns (calls: seq<RemoteCall>, payload: Option<seq<InfoPicture>>)
    ensures calls == UploadTrace(images, upload)
    ensures payload.Some? <==> UploadsSucceed(images, upload)
    ensures payload.Some? ==> payload.value == Payload(images, upload)
  {
    calls := [];
    var entries: seq<InfoPicture> := [];
    var k := 0;
    while k < |images|
      invariant 0 <= k <= |images| && |entries| == k
      invariant calls + UploadTrace(images[k..], upload) == UploadTrace(images, upload)
      invariant forall j :: 0 <= j < k ==> ItemUrl(images[j], upload).Success?
      invariant forall j :: 0 <= j < k ==> entries[j] == PayloadEntry(images[j], ItemUrl(images[j], upload).value, j)
    {
      var item := images[k];
      UploadTraceStep(images, k, upload);
      var url := item.imageUrl;
      if item.isNewLocal && item.file.Some? {
        calls := calls + [UploadImage(item.file.value)];
        var result := upload(item.file.value);
        if result.Failure? {
          assert ItemUrl(images[k], upload).Failure?;
          return calls, None;
        }
        url := Some(result.value);
      }
      entries := entries + [PayloadEntry(item, url, k)];
      k := k + 1;
    }
    PayloadFromEntries(images, upload, entries);
    payload := Some(entries);
  }

  class InfoPictureManager {
    var allImages: seq<DisplayImage>
    var deletedIds: seq<string>
    var baseline: Option<seq<DisplayImage>>
    var isUploading: bool

    function HasChanges(): (r: bool)
      reads this
      ensures (exists i :: 0 <= i < |allImages| && allImages[i].isNewLocal) ==> r
      ensures deletedIds != [] ==> r
      ensures baseline.None? ==> r
      ensures !r ==> baseline == Some(allImages)
    {
      Changed(allImages, deletedIds, baseline)
    }

    /** Before anything is loaded the empty list already counts as changed. */
    constructor()
      ensures allImages == [] && deletedIds == [] && baseline == None && !isUploading
      ensures HasChanges()
    {
      allImages := [];
      deletedIds := [];
      baseline := None;
      isUploading := false;
    }

    /** `loadImages` with the pictures the store returned. */
    method LoadImages(data: seq<InfoPicture>)
      modifies this
      ensures allImages == Map(data, Loaded) && deletedIds == [] && baseline == Some(allImages)
      ensures !HasChanges()
      ensures isUploading == old(isUploading)
    {
      allImages := Map(data, Loaded);
      deletedIds := [];
      baseline := Some(allImages);
    }

    method OnDrop(previousIndex: int, currentIndex: int)
      modifies this
      ensures allImages == Move(old(allImages), previousIndex, currentIndex)
      ensures deletedIds == old(deletedIds) && baseline == old(baseline) && isUploading == old(isUploading)
    {
      allImages := Move(allImages, previousIndex, currentIndex);
    }

    method OnFileSelected(files: Option<seq<FileRef>>)
      modifies this
      ensures allImages == old(allImages) + (if files.Some? then Map(files.value, NewLocalEntry) else [])
      ensures deletedIds == old(deletedIds) && baseline == old(baseline) && isUploading == old(isUploading)
    {
      if files.Some? {
        allImages := allImages + Map(files.value, NewLocalEntry);
      }
    }

    /** `removeImage(index)`: a stored card (one with an id that is not new and local) is
        remembered for deletion; the card leaves the list either way. */
    method RemoveImage(index: nat)
      requires index < |allImages|
      modifies this
      ensures allImages == RemoveAt(old(allImages), index)
      ensures var item := old(allImages)[index];
              deletedIds == old(deletedIds) + (if item.id != "" && !item.isNewLocal then [item.id] else [])
      ensures baseline == old(baseline) && isUploading == old(isUploading)
    {
      var item := allImages[index];
      if item.id != "" && !item.isNewLocal {
        deletedIds := deletedIds + [item.id];
      }
      allImages := RemoveAt(allImages, index);
    }

    /** `onSaveAll`. `deleteDoc` and `upload` are the remote calls, `commit` the outcome of
        the batch commit and `reloaded` what the store returns afterwards. Returns the
        calls made, in order, and whether everything succeeded. */
    method OnSaveAll(deleteDoc: string -> Result<()>, upload: FileRef -> Result<string>,
                     commit: Result<()>, reloaded: seq<InfoPicture>)
      returns (calls: seq<RemoteCall>, saved: bool)
      modifies this
      ensures old(isUploading) || !old(HasChanges()) ==>
                calls == [] && !saved && allImages == old(allImages) && deletedIds == old(deletedIds)
                && baseline == old(baseline) && isUploading == old(isUploading)
      ensures !old(isUploading) && old(HasChanges()) ==> !isUploading
      ensures !old(isUploading) && old(HasChanges()) ==>
                calls == SaveTrace(old(deletedIds), old(allImages), deleteDoc, upload)
      ensures saved <==> !old(isUploading) && old(HasChanges())
                         && DeletesSucceed(old(deletedIds), deleteDoc)
                         && UploadsSucceed(old(allImages), upload) && commit.Success?
      ensures saved ==> |calls| > 0 && calls[|calls| - 1] == CommitBatch(SyncBatch(Payload(old(allImages), upload), []))
      ensures saved ==> allImages == Map(reloaded, Loaded) && deletedIds == [] && baseline == Some(allImages)
      ensures !saved ==> allImages == old(allImages) && deletedIds == old(deletedIds) && baseline == old(baseline)
    {
      calls := [];
      saved := false;
      if isUploading || !HasChanges() {
        return;
      }
      isUploading := true;
      var deletesOk;
      calls, deletesOk := DeleteAll(deletedIds, deleteDoc);
      if !deletesOk {
        TraceOnDeleteFailure(deletedIds, allImages, deleteDoc, upload);
        isUploading := false;
        return;
      }
      var uploads, payload := UploadNewFiles(allImages, upload);
      calls := calls + uploads;
      if payload.None? {
        TraceOnUploadFailure(deletedIds, allImages, deleteDoc, upload);
        isUploading := false;
        return;
      }
      var batch := SyncAllPictures(payload.value, []);
      calls := calls + [CommitBatch(batch)];
      TraceOnCommit(deletedIds, allImages, deleteDoc, upload);
      if commit.Failure? {
        isUploading := false;
        return;
      }
      LoadImages(reloaded);
      isUploading := false;
      saved := true;
    }
  }
}
