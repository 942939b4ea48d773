/** The admin dialog that edits or creates a product: an array of image-url rows with a
    "main" flag, a category checklist, a formatted price field, and the save decision. */
module ProductForm {
  import opened Wrappers
  import opened Catalog
  import opened Seqs
  import opened Text
  import opened StableSort

  /** One row of the `imageUrls` form array. */
  datatype ImageEntry = ImageEntry(url: string, isMain: bool)

  const InvalidFormMessage := "Vui lòng kiểm tra lại tất cả các trường bị lỗi."
  const NoImageMessage := "Sản phẩm phải có ít nhất một hình ảnh URL hợp lệ."
  const SaveFailedPrefix := "Failed to save product: "
  const UnexpectedError := "An unexpected error occurred."

  // ----- The image rows -----

  /** The rows after `addImageUrlGroup(url, isMain)`: the new row goes last, and is main
      whenever it is the first row, whatever flag was passed. */
  function WithEntry(entries: seq<ImageEntry>, url: string, isMain: bool): (r: seq<ImageEntry>)
    ensures |r| == |entries| + 1 && r[..|entries|] == entries
    ensures r[|entries|].url == url
    ensures r[|entries|].isMain <==> isMain || entries == []
  {
    entries + [ImageEntry(url, if |entries| == 0 then true else isMain)]
  }

  /** The rows the dialog opens with: one per existing url, the first always main, a later
      one main iff it is the product's main image; a single empty main row when there is
      no url. */
  function PopulatedEntries(urls: seq<string>, mainImageUrl: string): (r: seq<ImageEntry>)
    ensures r != [] && r[0].isMain
    ensures urls == [] ==> r == [ImageEntry("", true)]
    ensures urls != [] ==> |r| == |urls|
    ensures urls != [] ==> forall i :: 0 <= i < |r| ==> r[i].url == urls[i]
  {
    if |urls| > 0 then
      seq(|urls|, i requires 0 <= i < |urls| => ImageEntry(urls[i], i == 0 || urls[i] == mainImageUrl))
    else [ImageEntry("", true)]
  }

  /** The rows after `removeImageUrlGroup(k)`: row k is gone; if it was main and rows
      remain, the new first row becomes main; every other row is untouched. */
  function RemovedEntry(entries: seq<ImageEntry>, k: nat): (r: seq<ImageEntry>)
    requires k < |entries|
    ensures |r| == |entries| - 1
    ensures forall i :: 0 < i < |r| ==> r[i] == RemoveAt(entries, k)[i]
    ensures r != [] ==> r[0].url == RemoveAt(entries, k)[0].url
    ensures r != [] ==> (r[0].isMain <==> RemoveAt(entries, k)[0].isMain || entries[k].isMain)
  {
    var rest := RemoveAt(entries, k);
    if entries[k].isMain && |rest| > 0 then rest[0 := rest[0].(isMain := true)] else rest
  }

  /** The rows after `setMainImage(k)`: row i is main iff i == k, so an index outside the
      array leaves no main row. */
  function SetMain(entries: seq<ImageEntry>, k: int): (r: seq<ImageEntry>)
    ensures |r| == |entries|
    ensures forall i :: 0 <= i < |r| ==> r[i].url == entries[i].url
  {
    seq(|entries|, i requires 0 <= i < |entries| => entries[i].(isMain := i == k))
  }

  function IsMainEntry(e: ImageEntry): bool {
    e.isMain
  }

  ghost predicate HasMain(entries: seq<ImageEntry>) {
    exists i :: 0 <= i < |entries| && entries[i].isMain
  }

  /** `setMainImage(k)` with k inside the array leaves exactly one main row, row k. */
  lemma SetMainLeavesOnlyK(entries: seq<ImageEntry>, k: nat)
    requires k < |entries|
    ensures Filter(SetMain(entries, k), IsMainEntry) == [SetMain(entries, k)[k]]
  {
    var r := SetMain(entries, k);
    assert r == r[..k] + [r[k]] + r[k + 1..];
    FilterNone(r[..k], IsMainEntry);
    FilterNone(r[k + 1..], IsMainEntry);
    FilterConcat(r[..k] + [r[k]], r[k + 1..], IsMainEntry);
    FilterConcat(r[..k], [r[k]], IsMainEntry);
  }

  /** Adding and removing rows, and choosing a row inside the array, never leave a
      non-empty array without a main row. */
  lemma MainRowPreserved(entries: seq<ImageEntry>, url: string, flag: bool, k: nat)
    requires HasMain(entries)
    ensures HasMain(WithEntry(entries, url, flag))
    ensures k < |entries| && |entries| > 1 ==> HasMain(RemovedEntry(entries, k))
    ensures k < |entries| ==> HasMain(SetMain(entries, k))
  {
    var m :| 0 <= m < |entries| && entries[m].isMain;
    assert WithEntry(entries, url, flag)[m] == entries[m];
    if k < |entries| && |entries| > 1 {
      var r := RemovedEntry(entries, k);
      if m < k {
        assert m == 0 || r[m] == entries[m];
      } else if m > k {
        assert m - 1 == 0 || r[m - 1] == entries[m];
      }
    }
    if k < |entries| {
      assert SetMain(entries, k)[k].isMain;
    }
  }

  /** Reopening a product whose main image is not its first url shows two main rows. */
  lemma ReopenShowsTwoMains(urls: seq<string>, mainImageUrl: string, j: nat)
    requires 0 < j < |urls| && urls[j] == mainImageUrl && urls[0] != mainImageUrl
    ensures PopulatedEntries(urls, mainImageUrl)[0].isMain
    ensures PopulatedEntries(urls, mainImageUrl)[j].isMain
  {
  }

  // ----- The preview list -----

  /** A row shown in the preview: a non-empty url starting with `http`. */
  function IsPreviewable(e: ImageEntry): bool {
    e.url != "" && StartsWith(e.url, "http")
  }

  function MainKey(e: ImageEntry): bool {
    e.isMain
  }

  /** The preview comparator: a main row goes before a non-main one. */
  predicate MainFirst(a: bool, b: bool) {
    a && !b
  }

  /** `sortImageUrls`: the previewable rows, stably sorted main rows first. */
  function SortedPreviews(entries: seq<ImageEntry>): (r: seq<ImageEntry>)
    ensures forall e :: e in r <==> e in entries && IsPreviewable(e)
  {
    var valid := Filter(entries, IsPreviewable);
    assert forall e :: e in multiset(valid) <==> e in valid;
    SortBy(valid, MainKey, MainFirst)
  }

  /** The preview is exactly the previewable main rows in array order, followed by the
      other previewable rows in array order. */
  lemma SortedPreviewsSplit(entries: seq<ImageEntry>)
    ensures var valid := Filter(entries, IsPreviewable);
            SortedPreviews(entries) == Filter(valid, IsMainEntry) + Filter(valid, HasKey(MainKey, false))
  {
    var valid := Filter(entries, IsPreviewable);
    var mains := Filter(valid, HasKey(MainKey, true));
    var others := Filter(valid, HasKey(MainKey, false));
    FilterSameAs(valid, IsMainEntry, HasKey(MainKey, true));
    FilterPartition(valid, HasKey(MainKey, true), HasKey(MainKey, false));
    MainsThenOthersSorted(mains, others);
    MainsThenOthersStable(valid);
    SortedStableIsUnique(mains + others, valid, MainKey, MainFirst);
  }

  lemma MainsThenOthersSorted(mains: seq<ImageEntry>, others: seq<ImageEntry>)
    requires forall e :: e in mains ==> e.isMain
    requires forall e :: e in others ==> !e.isMain
    ensures Sorted(mains + others, MainKey, MainFirst)
  {
    var r := mains + others;
    forall i, j | 0 <= i < j < |r| ensures !MainFirst(MainKey(r[j]), MainKey(r[i])) {
      if j < |mains| {
        assert r[i] == mains[i];
      } else {
        assert r[j] == others[j - |mains|];
      }
    }
  }

  lemma MainsThenOthersStable(valid: seq<ImageEntry>)
    ensures var r := Filter(valid, HasKey(MainKey, true)) + Filter(valid, HasKey(MainKey, false));
            Stable(r, valid, MainKey)
  {
    var mains := Filter(valid, HasKey(MainKey, true));
    var others := Filter(valid, HasKey(MainKey, false));
    forall k: bool ensures Filter(mains + others, HasKey(MainKey, k)) == Filter(valid, HasKey(MainKey, k)) {
      FilterConcat(mains, others, HasKey(MainKey, k));
      if k {
        FilterAll(mains, HasKey(MainKey, k));
        FilterNone(others, HasKey(MainKey, k));
      } else {
        FilterNone(mains, HasKey(MainKey, k));
        FilterAll(others, HasKey(MainKey, k));
      }
    }
  }

  lemma {:induction false} FilterSameAs<T(!new)>(s: seq<T>, p: T -> bool, q: T -> bool)
    requires forall x :: p(x) == q(x)
    ensures Filter(s, p) == Filter(s, q)
  {
    if s != [] {
      FilterSameAs(s[1..], p, q);
    }
  }

  // ----- The price field -----

  function DigitValue(c: char): nat
    requires IsDigit(c)
  {
    c as int - '0' as int
  }

  function DigitChar(d: nat): (c: char)
    requires d < 10
    ensures IsDigit(c) && DigitValue(c) == d
  {
    ('0' as int + d) as char
  }

  /** The decimal number a string of digits spells out (leading zeros allowed). */
  function DigitsValue(ds: string): nat
    requires forall i :: 0 <= i < |ds| ==> IsDigit(ds[i])
  {
    if ds == [] then 0
    else 10 * DigitsValue(ds[..|ds| - 1]) + DigitValue(ds[|ds| - 1])
  }

  /** `parseVndPrice`: the value of the text's digits read as one decimal number, every
      other character ignored; 0 when there is no digit. */
  function ParseVndPrice(text: string): (n: nat)
    ensures (forall i :: 0 <= i < |text| ==> !IsDigit(text[i])) ==> n == 0
  {
    DigitsOf(text);
    DigitsValue(Filter(text, IsDigit))
  }

  /** The digits picked out of a text are digits, and there are none when the text has none. */
  lemma DigitsOf(text: string)
    ensures forall i :: 0 <= i < |Filter(text, IsDigit)| ==> IsDigit(Filter(text, IsDigit)[i])
    ensures (forall i :: 0 <= i < |text| ==> !IsDigit(text[i])) ==> Filter(text, IsDigit) == []
  {
    var digits := Filter(text, IsDigit);
    assert forall i :: 0 <= i < |digits| ==> digits[i] in digits;
    if forall i :: 0 <= i < |text| ==> !IsDigit(text[i]) {
      assert forall c :: c in text ==> !IsDigit(c);
      FilterNone(text, IsDigit);
    }
  }

  /** The shortest decimal spelling of `n`. */
  function DecimalString(n: nat): (s: string)
    ensures s != [] && forall i :: 0 <= i < |s| ==> IsDigit(s[i])
  {
    if n < 10 then [DigitChar(n)] else DecimalString(n / 10) + [DigitChar(n % 10)]
  }

  lemma {:induction false} DecimalStringValue(n: nat)
    ensures DigitsValue(DecimalString(n)) == n
  {
    if n >= 10 {
      var s := DecimalString(n);
      assert s[..|s| - 1] == DecimalString(n / 10);
      DecimalStringValue(n / 10);
    }
  }

  /** Parsing the plain decimal spelling of a price gives the price back. */
  lemma ParseDecimalString(n: nat)
    ensures ParseVndPrice(DecimalString(n)) == n
  {
    var s := DecimalString(n);
    assert forall c :: c in s ==> IsDigit(c);
    FilterAll(s, IsDigit);
    DecimalStringValue(n);
  }

  /** Inserting a non-digit anywhere (a thousands separator, a currency sign, a space)
      does not change the parsed price. */
  lemma NonDigitIgnored(a: string, c: char, b: string)
    requires !IsDigit(c)
    ensures ParseVndPrice(a + [c] + b) == ParseVndPrice(a + b)
  {
    FilterConcat(a + [c], b, IsDigit);
    FilterConcat(a, [c], IsDigit);
    FilterConcat(a, b, IsDigit);
    assert Filter([c], IsDigit) == [];
    assert Filter(a, IsDigit) + [] == Filter(a, IsDigit);
  }

  // ----- The category checklist -----

  /** The categories after `onCategoryChange`: checking appends the value; unchecking
      removes its first occurrence, if any. */
  function CategoryChanged(categories: seq<string>, value: string, checked: bool): (r: seq<string>)
    ensures checked ==> multiset(r) == multiset(categories) + multiset{value}
    ensures !checked ==> multiset(r) == multiset(categories) - multiset{value}
  {
    if checked then categories + [value]
    else
      var k := IndexOf(categories, value);
      if k == -1 then categories
      else
        MultisetRemoveAt(categories, k);
        RemoveAt(categories, k)
  }

  /** Unchecking a category that was just checked, and held nowhere else, restores the list. */
  lemma UncheckUndoesCheck(categories: seq<string>, value: string)
    requires value !in categories
    ensures CategoryChanged(CategoryChanged(categories, value, true), value, false) == categories
  {
    IndexOfLast(categories, value);
    assert RemoveAt(categories + [value], |categories|) == categories;
  }

  // ----- Saving -----

  /** The value of the form: the text controls, the quantity, the categories, the id
      (`""` for none) and the image rows. */
  datatype ModalForm = ModalForm(
    name: string,
    price: string,
    description: string,
    quantity: int,
    categories: seq<string>,
    id: string,
    imageUrls: seq<ImageEntry>)

  predicate IsLineTerminator(c: char) {
    c == '\n' || c == '\r' || c == '\U{2028}' || c == '\U{2029}'
  }

  /** The url control's validators: required, and the pattern `^https?://.*$`. */
  predicate UrlControlValid(u: string) {
    && u != ""
    && (StartsWith(u, "http://") || StartsWith(u, "https://"))
    && forall i :: 0 <= i < |u| ==> !IsLineTerminator(u[i])
  }

  /** `form.valid`: name and price present, quantity at least 0, at least one category,
      and every image row's url valid. */
  predicate FormValid(f: ModalForm) {
    && f.name != ""
    && f.price != ""
    && f.quantity >= 0
    && f.categories != []
    && forall i :: 0 <= i < |f.imageUrls| ==> UrlControlValid(f.imageUrls[i].url)
  }

  function EntryUrl(e: ImageEntry): string {
    e.url
  }

  function IsHttpUrl(u: string): bool {
    u != "" && StartsWith(u, "http")
  }

  /** The urls `onSave` keeps: the rows' urls that are non-empty and start with `http`. */
  function SavedUrls(entries: seq<ImageEntry>): (urls: seq<string>)
    ensures forall u :: u in urls <==> IsHttpUrl(u) && exists i :: 0 <= i < |entries| && entries[i].url == u
  {
    var all := Map(entries, EntryUrl);
    assert forall u :: u in all <==> exists i :: 0 <= i < |entries| && entries[i].url == u by {
      forall u | u in all ensures exists i :: 0 <= i < |entries| && entries[i].url == u {
        var i :| 0 <= i < |all| && all[i] == u;
      }
    }
    Filter(all, IsHttpUrl)
  }

  /** The first main row, as `find(item => item.isMain)` returns it. */
  function FirstMain(entries: seq<ImageEntry>): (r: Option<ImageEntry>)
    ensures r.Some? ==> r.value in entries && r.value.isMain
    ensures r.None? <==> forall i :: 0 <= i < |entries| ==> !entries[i].isMain
    ensures r.Some? ==> exists i :: 0 <= i < |entries| && entries[i] == r.value
                                    && forall j :: 0 <= j < i ==> !entries[j].isMain
  {
    if entries == [] then None
    else if entries[0].isMain then Some(entries[0])
    else
      var r := FirstMain(entries[1..]);
      if r.Some? then
        var i :| 0 <= i < |entries[1..]| && entries[1..][i] == r.value
                 && forall j :: 0 <= j < i ==> !entries[1..][j].isMain;
        assert entries[i + 1] == r.value;
        r
      else r
  }

  /** The product data sent to the store; the id travels beside it. */
  datatype ProductRecord = ProductRecord(
    name: string,
    description: string,
    price: int,
    quantity: int,
    categories: seq<string>,
    imageUrls: seq<string>,
    mainImageUrl: string)

  /** What `onSave` does once it has read the form: reject with a message, update the
      product with this id, or add a new product without an id. */
  datatype SaveRequest =
    | Rejected(message: string)
    | UpdateProduct(id: string, record: ProductRecord)
    | AddProduct(record: ProductRecord)

  function SaveRequestOf(f: ModalForm): (r: SaveRequest)
    ensures !FormValid(f) <==> r == Rejected(InvalidFormMessage)
    ensures FormValid(f) && SavedUrls(f.imageUrls) == [] <==> r == Rejected(NoImageMessage)
    ensures r.UpdateProduct? <==> FormValid(f) && SavedUrls(f.imageUrls) != [] && f.id != ""
    ensures r.AddProduct? <==> FormValid(f) && SavedUrls(f.imageUrls) != [] && f.id == ""
    ensures r.UpdateProduct? ==> r.id == f.id
    ensures !r.Rejected? ==> r.record.imageUrls == SavedUrls(f.imageUrls)
    ensures !r.Rejected? ==> r.record.price == ParseVndPrice(f.price)
    ensures !r.Rejected? ==> r.record.name == f.name && r.record.description == f.description
    ensures !r.Rejected? ==> r.record.quantity == f.quantity && r.record.categories == f.categories
    ensures !r.Rejected? ==> r.record.mainImageUrl in r.record.imageUrls
  {
    if !FormValid(f) then Rejected(InvalidFormMessage)
    else
      var urls := SavedUrls(f.imageUrls);
      if |urls| == 0 then Rejected(NoImageMessage)
      else
        var main := FirstMain(f.imageUrls);
        var mainImageUrl := if main.Some? && main.value.url != "" then main.value.url else urls[0];
        assert mainImageUrl in urls by {
          if main.Some? && main.value.url != "" {
            var i :| 0 <= i < |f.imageUrls| && f.imageUrls[i] == main.value;
            HttpPrefix(main.value.url);
          }
        }
        var record := ProductRecord(f.name, f.description, ParseVndPrice(f.price), f.quantity,
                                    f.categories, urls, mainImageUrl);
        if f.id != "" then UpdateProduct(f.id, record) else AddProduct(record)
  }

  lemma HttpPrefix(u: string)
    requires UrlControlValid(u)
    ensures IsHttpUrl(u)
  {
    if StartsWith(u, "http://") {
      assert u[..4] == u[..7][..4];
    } else {
      assert u[..4] == u[..8][..4];
    }
  }

  /** On a valid form every row's url is kept, so the "no image" rejection happens
      exactly when there are no rows. */
  lemma ValidFormKeepsEveryUrl(f: ModalForm)
    requires FormValid(f)
    ensures SavedUrls(f.imageUrls) == Map(f.imageUrls, EntryUrl)
    ensures SaveRequestOf(f) == Rejected(NoImageMessage) <==> f.imageUrls == []
  {
    var all := Map(f.imageUrls, EntryUrl);
    forall u | u in all ensures IsHttpUrl(u) {
      var i :| 0 <= i < |all| && all[i] == u;
      HttpPrefix(f.imageUrls[i].url);
    }
    FilterAll(all, IsHttpUrl);
  }

  /** The saved main image is the first main row's url whenever a row is main, and the
      first saved url otherwise. */
  lemma SavedMainImage(f: ModalForm)
    requires !SaveRequestOf(f).Rejected?
    ensures FirstMain(f.imageUrls).Some? ==> SaveRequestOf(f).record.mainImageUrl == FirstMain(f.imageUrls).value.url
    ensures FirstMain(f.imageUrls).None? ==> SaveRequestOf(f).record.mainImageUrl == SavedUrls(f.imageUrls)[0]
  {
    if FirstMain(f.imageUrls).Some? {
      var i :| 0 <= i < |f.imageUrls| && f.imageUrls[i] == FirstMain(f.imageUrls).value;
    }
  }

  /** Opening a product whose main image is its second url and saving without touching
      the rows makes the first url the main image. */
  lemma ReopenAndSaveMovesMain(name: string, price: string, categories: seq<string>, id: string, a: string, b: string)
    requires name != "" && price != "" && categories != [] && id != ""
    requires UrlControlValid(a) && UrlControlValid(b) && a != b
    ensures var f := ModalForm(name, price, "", 0, categories, id, PopulatedEntries([a, b], b));
            SaveRequestOf(f).UpdateProduct? && SaveRequestOf(f).record.mainImageUrl == a
  {
    var entries := PopulatedEntries([a, b], b);
    var f := ModalForm(name, price, "", 0, categories, id, entries);
    assert entries[0] == ImageEntry(a, true);
    assert FormValid(f);
    assert FirstMain(entries) == Some(ImageEntry(a, true));
    ValidFormKeepsEveryUrl(f);
    assert a in SavedUrls(entries);
  }

  /** The message shown when the store rejects the write. */
  function SaveFailedMessage(errorText: string): (m: string)
    ensures StartsWith(m, SaveFailedPrefix)
    ensures m[|SaveFailedPrefix|..] == if errorText != "" then errorText else UnexpectedError
  {
    SaveFailedPrefix + (if errorText != "" then errorText else UnexpectedError)
  }

  class ProductFormModal {
    var name: string
    var price: string
    var description: string
    var quantity: int
    var categories: seq<string>
    var id: string
    var imageUrls: seq<ImageEntry>
    var errorMessage: Option<string>
    var sortedImagePreviews: seq<ImageEntry>
    /** The dialog was closed with `true`. */
    var closedWithSave: bool

    /** The `valueChanges` subscription keeps the preview in step with the rows. */
    ghost predicate Valid()
      reads this
    {
      sortedImagePreviews == SortedPreviews(imageUrls)
    }

    function Form(): ModalForm
      reads this
    {
      ModalForm(name, price, description, quantity, categories, id, imageUrls)
    }

    /** Opens the dialog on `data` (an existing product) or on nothing (a new one).
        `formatPrice` stands for the locale currency formatter. */
    constructor(data: Option<Product>, formatPrice: int -> string)
      ensures Valid()
      ensures data.Some? ==> imageUrls == PopulatedEntries(data.value.imageUrls, data.value.mainImageUrl)
      ensures data.None? ==> imageUrls == [ImageEntry("", true)]
      ensures data.Some? ==> name == data.value.name && id == data.value.id
      ensures data.Some? ==> price == formatPrice(data.value.price) && quantity == data.value.quantity
      ensures data.Some? ==> categories == data.value.categories && description == data.value.description
      ensures data.None? ==> name == "" && price == "" && description == ""
      ensures data.None? ==> id == "" && quantity == 0 && categories == []
      ensures errorMessage == None && !closedWithSave
    {
      name := if data.Some? then data.value.name else "";
      price := if data.Some? then formatPrice(data.value.price) else "";
      description := if data.Some? then data.value.description else "";
      quantity := if data.Some? then data.value.quantity else 0;
      categories := if data.Some? then data.value.categories else [];
      id := if data.Some? then data.value.id else "";
      errorMessage := None;
      closedWithSave := false;
      var rows: seq<ImageEntry> := [];
      if data.Some? && |data.value.imageUrls| > 0 {
        var urls, main := data.value.imageUrls, data.value.mainImageUrl;
        var i := 0;
        while i < |urls|
          invariant 0 <= i <= |urls| && |rows| == i
          invariant forall j :: 0 <= j < i ==> rows[j] == ImageEntry(urls[j], j == 0 || urls[j] == main)
        {
          rows := WithEntry(rows, urls[i], urls[i] == main);
          i := i + 1;
        }
      } else {
        rows := WithEntry(rows, "", false);
      }
      imageUrls := rows;
      sortedImagePreviews := SortedPreviews(rows);
    }

    method AddImageUrlGroup(url: string, isMain: bool)
      modifies this
      ensures Valid()
      ensures imageUrls == WithEntry(old(imageUrls), url, isMain)
      ensures Form() == old(Form()).(imageUrls := imageUrls)
      ensures errorMessage == old(errorMessage) && closedWithSave == old(closedWithSave)
    {
      imageUrls := WithEntry(imageUrls, url, isMain);
      sortedImagePreviews := SortedPreviews(imageUrls);
    }

    method RemoveImageUrlGroup(index: nat)
      requires index < |imageUrls|
      modifies this
      ensures Valid()
      ensures imageUrls == RemovedEntry(old(imageUrls), index)
      ensures Form() == old(Form()).(imageUrls := imageUrls)
      ensures errorMessage == old(errorMessage) && closedWithSave == old(closedWithSave)
    {
      var wasMain := imageUrls[index].isMain;
      imageUrls := RemoveAt(imageUrls, index);
      if wasMain && |imageUrls| > 0 {
        imageUrls := imageUrls[0 := imageUrls[0].(isMain := true)];
      }
      sortedImagePreviews := SortedPreviews(imageUrls);
    }

    /** Sets every row's flag to "is this row `index`". */
    method SetMainImage(index: int)
      modifies this
      ensures Valid()
      ensures imageUrls == SetMain(old(imageUrls), index)
      ensures forall i :: 0 <= i < |imageUrls| ==> (imageUrls[i].isMain <==> i == index)
      ensures Form() == old(Form()).(imageUrls := imageUrls)
      ensures errorMessage == old(errorMessage) && closedWithSave == old(closedWithSave)
    {
      var rows := imageUrls;
      var i := 0;
      while i < |rows|
        invariant 0 <= i <= |rows| && |rows| == |old(imageUrls)|
        invariant forall j :: 0 <= j < i ==> rows[j] == old(imageUrls)[j].(isMain := j == index)
        invariant forall j :: i <= j < |rows| ==> rows[j] == old(imageUrls)[j]
      {
        rows := rows[i := rows[i].(isMain := i == index)];
        i := i + 1;
      }
      imageUrls := rows;
      sortedImagePreviews := SortedPreviews(imageUrls);
    }

    method OnCategoryChange(value: string, checked: bool)
      modifies this
      ensures categories == CategoryChanged(old(categories), value, checked)
      ensures Form() == old(Form()).(categories := categories)
      ensures Valid() <==> old(Valid())
      ensures errorMessage == old(errorMessage) && closedWithSave == old(closedWithSave)
    {
      categories := CategoryChanged(categories, value, checked);
    }

    /** `onSave` with `write` the outcome of the update or add call; the write is issued
        only when the request is not a rejection. */
    method OnSave(write: Result<()>) returns (request: SaveRequest)
      modifies this
      ensures request == SaveRequestOf(old(Form()))
      ensures Form() == old(Form())
      ensures request.Rejected? ==> errorMessage == Some(request.message) && closedWithSave == old(closedWithSave)
      ensures !request.Rejected? && write.Success? ==> errorMessage == None && closedWithSave
      ensures !request.Rejected? && write.Failure? ==>
                errorMessage == Some(SaveFailedMessage(write.msg)) && closedWithSave == old(closedWithSave)
      ensures Valid() <==> old(Valid())
    {
      errorMessage := None;
      request := SaveRequestOf(Form());
      if request.Rejected? {
        errorMessage := Some(request.message);
        return;
      }
      match write
      case Success(_) =>
        closedWithSave := true;
      case Failure(msg) =>
        errorMessage := Some(SaveFailedMessage(msg));
    }
  }
}
