/** The product details page: one image list made of the main image, the gallery and
    the active info cards, and a main-image selector that steps through it cyclically. */
module ProductDetails {
  import opened Wrappers
  import opened Catalog
  import opened Seqs

  function NonEmpty(url: string): bool {
    url != ""
  }

  /** `[...new Set([main, ...gallery, ...infoCards].filter(url => !!url))]`. */
  function MergedImages(main: string, gallery: seq<string>, infoCards: seq<string>): (r: seq<string>)
    ensures NoDuplicates(r)
    ensures forall u :: u in r <==> u != "" && (u == main || u in gallery || u in infoCards)
  {
    Dedup(Filter([main] + gallery + infoCards, NonEmpty))
  }

  /** A non-empty main image heads the merged list. */
  lemma MainImageFirst(main: string, gallery: seq<string>, infoCards: seq<string>)
    requires main != ""
    ensures MergedImages(main, gallery, infoCards) != []
    ensures MergedImages(main, gallery, infoCards)[0] == main
  {
    var all := [main] + gallery + infoCards;
    assert all[0] == main;
    DedupHead(Filter(all, NonEmpty));
  }

  /** Urls keep the order of their first occurrence among the non-empty candidates. */
  lemma MergedKeepsFirstOccurrenceOrder(main: string, gallery: seq<string>, infoCards: seq<string>, i: nat, j: nat)
    requires i < j < |MergedImages(main, gallery, infoCards)|
    ensures var candidates := Filter([main] + gallery + infoCards, NonEmpty);
            var r := MergedImages(main, gallery, infoCards);
            IndexOf(candidates, r[i]) < IndexOf(candidates, r[j])
  {
    DedupFirstOccurrenceOrder(Filter([main] + gallery + infoCards, NonEmpty), i, j);
  }

  /** The image the selector starts from: the main image if set, else the first url. */
  function Current(mainImage: string, urls: seq<string>): (c: string)
    requires urls != []
    ensures mainImage == "" ==> c == urls[0]
    ensures mainImage != "" ==> c == mainImage
  {
    if mainImage != "" then mainImage else urls[0]
  }

  /** Index `nextImage` selects; an unknown current image (index -1) leads to index 0. */
  function NextIndex(urls: seq<string>, mainImage: string): (k: nat)
    requires urls != []
    ensures k < |urls|
    ensures Current(mainImage, urls) !in urls ==> k == 0
  {
    (IndexOf(urls, Current(mainImage, urls)) + 1) % |urls|
  }

  /** Index `prevImage` selects. The dividend is negative only for an unknown image in a
      one-element list, where JavaScript's `-1 % 1` is `-0` and selects index 0 as the
      Euclidean remainder does. */
  function PrevIndex(urls: seq<string>, mainImage: string): (k: nat)
    requires urls != []
    ensures k < |urls|
  {
    (IndexOf(urls, Current(mainImage, urls)) - 1 + |urls|) % |urls|
  }

  /** With nothing selected the selector starts from the first url, so stepping forward
      selects the second url (the first again in a one-element list) and stepping back
      selects the last. */
  lemma NoSelectionSteps(urls: seq<string>)
    requires urls != []
    ensures NextIndex(urls, "") == if |urls| == 1 then 0 else 1
    ensures PrevIndex(urls, "") == |urls| - 1
  {
  }

  lemma StepMod(n: nat, k: nat)
    requires k < n
    ensures (k + 1) % n == if k + 1 == n then 0 else k + 1
    ensures (k - 1 + n) % n == if k == 0 then n - 1 else k - 1
  {
  }

  /** Stepping forward moves one position to the right, wrapping from the last to the first. */
  lemma NextIsSuccessor(urls: seq<string>, k: nat)
    requires NoDuplicates(urls) && k < |urls| && urls[k] != ""
    ensures NextIndex(urls, urls[k]) == if k + 1 == |urls| then 0 else k + 1
  {
    IndexOfDistinct(urls, k);
    StepMod(|urls|, k);
  }

  /** Stepping back moves one position to the left, wrapping from the first to the last. */
  lemma PrevIsPredecessor(urls: seq<string>, k: nat)
    requires NoDuplicates(urls) && k < |urls| && urls[k] != ""
    ensures PrevIndex(urls, urls[k]) == if k == 0 then |urls| - 1 else k - 1
  {
    IndexOfDistinct(urls, k);
    StepMod(|urls|, k);
  }

  /** On a list of distinct non-empty urls, stepping back undoes stepping forward. */
  lemma PrevUndoesNext(urls: seq<string>, k: nat)
    requires NoDuplicates(urls) && k < |urls| && forall u :: u in urls ==> u != ""
    ensures PrevIndex(urls, urls[NextIndex(urls, urls[k])]) == k
  {
    assert urls[k] in urls;
    NextIsSuccessor(urls, k);
    var n := NextIndex(urls, urls[k]);
    assert urls[n] in urls;
    PrevIsPredecessor(urls, n);
  }

  /** ... and stepping forward undoes stepping back. */
  lemma NextUndoesPrev(urls: seq<string>, k: nat)
    requires NoDuplicates(urls) && k < |urls| && forall u :: u in urls ==> u != ""
    ensures NextIndex(urls, urls[PrevIndex(urls, urls[k])]) == k
  {
    assert urls[k] in urls;
    PrevIsPredecessor(urls, k);
    var p := PrevIndex(urls, urls[k]);
    assert urls[p] in urls;
    NextIsSuccessor(urls, p);
  }

  class ProductDetailsPage {
    /** The selected image; `""` while none is selected. */
    var mainImage: string

    constructor()
      ensures mainImage == ""
    {
      mainImage := "";
    }

    /** The product stream's `map` step: a found product gets the merged image list, and
        its main image becomes the selection unless one is already selected. */
    method OnProductLoaded(product: Option<Product>, infoCards: seq<string>) returns (images: Option<seq<string>>)
      modifies this
      ensures images.Some? <==> product.Some?
      ensures product.Some? ==> images.value == MergedImages(product.value.mainImageUrl, product.value.imageUrls, infoCards)
      ensures mainImage == if product.Some? && old(mainImage) == "" && product.value.mainImageUrl != ""
                           then product.value.mainImageUrl else old(mainImage)
    {
      if product.None? {
        return None;
      }
      var p := product.value;
      images := Some(MergedImages(p.mainImageUrl, p.imageUrls, infoCards));
      if mainImage == "" && p.mainImageUrl != "" {
        mainImage := p.mainImageUrl;
      }
    }

    method SetMainImage(imageUrl: string)
      modifies this
      ensures mainImage == imageUrl
    {
      mainImage := imageUrl;
    }

    method NextImage(urls: seq<string>)
      modifies this
      ensures urls == [] ==> mainImage == old(mainImage)
      ensures urls != [] ==> mainImage == urls[NextIndex(urls, old(mainImage))] && mainImage in urls
    {
      if |urls| == 0 {
        return;
      }
      var current := if mainImage != "" then mainImage else urls[0];
      var idx := IndexOf(urls, current);
      SetMainImage(urls[(idx + 1) % |urls|]);
    }

    method PrevImage(urls: seq<string>)
      modifies this
      ensures urls == [] ==> mainImage == old(mainImage)
      ensures urls != [] ==> mainImage == urls[PrevIndex(urls, old(mainImage))] && mainImage in urls
    {
      if |urls| == 0 {
        return;
      }
      var current := if mainImage != "" then mainImage else urls[0];
      var idx := IndexOf(urls, current);
      SetMainImage(urls[(idx - 1 + |urls|) % |urls|]);
    }
  }
}
