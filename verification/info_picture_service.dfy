/** The info-card store: builds the one write batch that synchronises the whole list,
    and derives the urls of the active cards. */
module InfoPictureStore {
  import opened Catalog
  import opened Seqs

  /** The label a card gets when it has none. */
  const DefaultKind := "Standard"

  /** A document reference: an existing id, or a fresh auto-generated one. */
  datatype DocTarget = ExistingDoc(id: string) | NewDoc

  /** The fields a merge-set writes; the server time stamp it adds is not modelled. */
  datatype PictureData = PictureData(imageUrl: string, kind: string, isActive: bool, order: int)

  datatype BatchOp = Delete(id: string) | MergeSet(target: DocTarget, data: PictureData)

  /** `type || 'Standard'`. */
  function KindOrDefault(kind: string): (k: string)
    ensures k != ""
    ensures kind != "" ==> k == kind
  {
    if kind != "" then kind else DefaultKind
  }

  function TargetFor(id: string): (t: DocTarget)
    ensures t.NewDoc? <==> id == ""
    ensures t.ExistingDoc? ==> t.id == id
  {
    if id != "" then ExistingDoc(id) else NewDoc
  }

  function DeleteOp(id: string): BatchOp {
    Delete(id)
  }

  /** The merge-set for the picture at position `index` of the list. */
  function MergeSetFor(pic: InfoPicture, index: int): BatchOp {
    MergeSet(TargetFor(pic.id), PictureData(pic.imageUrl, KindOrDefault(pic.kind), pic.isActive, index))
  }

  /** The batch: one delete per id, then one merge-set per picture in list order. */
  function SyncBatch(pictures: seq<InfoPicture>, deletedIds: seq<string>): (batch: seq<BatchOp>)
    ensures |batch| == |deletedIds| + |pictures|
    ensures forall i :: 0 <= i < |batch| ==> (batch[i].Delete? <==> i < |deletedIds|)
  {
    Map(deletedIds, DeleteOp) + seq(|pictures|, i requires 0 <= i < |pictures| => MergeSetFor(pictures[i], i))
  }

  /** `syncAllPictures`: queues the deletes, then the merge-sets; the caller commits the
      returned batch once. */
  method SyncAllPictures(pictures: seq<InfoPicture>, deletedIds: seq<string>) returns (batch: seq<BatchOp>)
    ensures batch == SyncBatch(pictures, deletedIds)
    ensures forall i :: 0 <= i < |deletedIds| ==> batch[i] == Delete(deletedIds[i])
    ensures forall i :: 0 <= i < |pictures| ==>
              batch[|deletedIds| + i].MergeSet?
              && batch[|deletedIds| + i].target == TargetFor(pictures[i].id)
              && batch[|deletedIds| + i].data.order == i
              && batch[|deletedIds| + i].data.imageUrl == pictures[i].imageUrl
              && batch[|deletedIds| + i].data.kind == KindOrDefault(pictures[i].kind)
              && batch[|deletedIds| + i].data.isActive == pictures[i].isActive
  {
    batch := [];
    var i := 0;
    while i < |deletedIds|
      invariant 0 <= i <= |deletedIds|
      invariant batch == Map(deletedIds[..i], DeleteOp)
    {
      batch := batch + [Delete(deletedIds[i])];
      i := i + 1;
    }
    assert deletedIds[..i] == deletedIds;
    var index := 0;
    while index < |pictures|
      invariant 0 <= index <= |pictures|
      invariant |batch| == |deletedIds| + index
      invariant batch[..|deletedIds|] == Map(deletedIds, DeleteOp)
      invariant forall j :: 0 <= j < index ==> batch[|deletedIds| + j] == MergeSetFor(pictures[j], j)
    {
      batch := batch + [MergeSetFor(pictures[index], index)];
      index := index + 1;
    }
  }

  /** With the default empty id list the batch holds no delete. */
  lemma NoDeletesByDefault(pictures: seq<InfoPicture>)
    ensures forall op :: op in SyncBatch(pictures, []) ==> op.MergeSet?
  {
  }

  /** `getActiveInfoCards`: the `imageUrl` of each active picture, in list order. */
  function ActiveInfoCards(pictures: seq<InfoPicture>): (urls: seq<string>)
    ensures |urls| <= |pictures|
  {
    if pictures == [] then []
    else (if pictures[0].isActive then [pictures[0].imageUrl] else []) + ActiveInfoCards(pictures[1..])
  }

  function IsActivePicture(p: InfoPicture): bool {
    p.isActive
  }

  function ImageUrlOf(p: InfoPicture): string {
    p.imageUrl
  }

  /** The cards are exactly the active pictures mapped to their urls. */
  lemma {:induction false} ActiveInfoCardsIsFilterThenMap(pictures: seq<InfoPicture>)
    ensures ActiveInfoCards(pictures) == Map(Filter(pictures, IsActivePicture), ImageUrlOf)
  {
    if pictures != [] {
      ActiveInfoCardsIsFilterThenMap(pictures[1..]);
    }
  }
}
