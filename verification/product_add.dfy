/** The "add product" page: a form, a list of picked files, and a submit that uploads
    every file, then writes one product record. */
module ProductAddition {
  import opened Wrappers
  import opened Catalog
  import opened Seqs

  /** The page's reactive form. */
  datatype AddForm = AddForm(
    name: string,
    description: string,
    price: int,
    quantity: int,
    isActive: bool,
    categories: seq<string>)

  /** The form's initial value, and the value `resetForm` restores. */
  const DefaultForm := AddForm("", "", 0, 0, true, [])

  /** Name present, price and quantity at least 0, at least one category. */
  predicate AddFormValid(f: AddForm) {
    f.name != "" && f.price >= 0 && f.quantity >= 0 && f.categories != []
  }

  /** The record `saveProductToFirestore` writes: the form fields, the main image, the
      uploaded urls and the two dates. */
  datatype ProductDoc = ProductDoc(
    name: string,
    description: string,
    price: int,
    quantity: int,
    isActive: bool,
    categories: seq<string>,
    mainImageUrl: string,
    imageUrls: seq<string>,
    insertDate: int,
    updateDate: int)

  /** Outcome of `onSubmit`: stopped by the guard, an upload failed, the write failed, or
      the product was created; the last two carry the record that was sent. */
  datatype SubmitOutcome =
    | NotSubmitted
    | UploadFailed
    | WriteFailed(doc: ProductDoc)
    | Created(doc: ProductDoc)

  /** `splice(index, 1)`: a negative index counts from the end (clamped at 0), and an
      index at or past the end removes nothing. */
  function SpliceOne<T>(s: seq<T>, index: int): (r: seq<T>)
    ensures 0 <= index < |s| ==> r == RemoveAt(s, index)
    ensures index >= |s| ==> r == s
    ensures -|s| <= index < 0 ==> r == RemoveAt(s, |s| + index)
    ensures index < -|s| && s != [] ==> r == s[1..]
    ensures |r| == if s == [] || index >= |s| then |s| else |s| - 1
  {
    var start := if index < 0 then (if |s| + index < 0 then 0 else |s| + index) else index;
    if start >= |s| then s else RemoveAt(s, start)
  }

  /** `Promise.all` over one upload per file: every url in file order, or a failure when
      any upload fails. */
  function UploadAll(files: seq<FileRef>, upload: FileRef -> Result<string>): (r: Result<seq<string>>)
    ensures r.Success? <==> forall i :: 0 <= i < |files| ==> upload(files[i]).Success?
    ensures r.Success? ==> |r.value| == |files|
    ensures r.Success? ==> forall i :: 0 <= i < |files| ==> r.value[i] == upload(files[i]).value
  {
    if files == [] then Success([])
    else
      match upload(files[0])
      case Failure(msg) => Failure(msg)
      case Success(url) =>
        match UploadAll(files[1..], upload)
        case Failure(msg) => Failure(msg)
        case Success(rest) => Success([url] + rest)
  }

  /** The main image after the uploads: the one the user set, otherwise the first
      uploaded url. */
  function ChosenMain(current: string, uploaded: seq<string>): (m: string)
    ensures current != "" ==> m == current
    ensures current == "" && uploaded != [] ==> m == uploaded[0]
    ensures m == current || m in uploaded
  {
    if current == "" && |uploaded| > 0 then uploaded[0] else current
  }

  /** After a failed write the chosen main image stays on the page, so a retry that
      uploads the files again still names the url from the first attempt. */
  lemma RetryKeepsEarlierMain(first: seq<string>, second: seq<string>)
    requires first != [] && first[0] != ""
    ensures ChosenMain(ChosenMain("", first), second) == first[0]
  {
  }

  class ProductAdd {
    var form: AddForm
    var files: seq<FileRef>
    var uploadedImageUrls: seq<string>
    var mainImageUrl: string
    var isUploading: bool

    ghost predicate AtDefaults()
      reads this
    {
      form == DefaultForm && files == [] && uploadedImageUrls == [] && mainImageUrl == ""
    }

    constructor()
      ensures AtDefaults() && !isUploading
    {
      form := DefaultForm;
      files := [];
      uploadedImageUrls := [];
      mainImageUrl := "";
      isUploading := false;
    }

    /** The user editing the form controls. */
    method EditForm(f: AddForm)
      modifies this
      ensures form == f
      ensures files == old(files) && uploadedImageUrls == old(uploadedImageUrls)
      ensures mainImageUrl == old(mainImageUrl) && isUploading == old(isUploading)
    {
      form := f;
    }

    /** `onFileSelected`: the picked files, if any, go after the ones already listed. */
    method OnFileSelected(picked: Option<seq<FileRef>>)
      modifies this
      ensures files == old(files) + (if picked.Some? then picked.value else [])
      ensures form == old(form) && uploadedImageUrls == old(uploadedImageUrls)
      ensures mainImageUrl == old(mainImageUrl) && isUploading == old(isUploading)
    {
      if picked.Some? {
        files := files + picked.value;
      }
    }

    method RemoveFile(index: int)
      modifies this
      ensures files == SpliceOne(old(files), index)
      ensures form == old(form) && uploadedImageUrls == old(uploadedImageUrls)
      ensures mainImageUrl == old(mainImageUrl) && isUploading == old(isUploading)
    {
      files := SpliceOne(files, index);
    }

    method SetMainImage(url: string)
      modifies this
      ensures mainImageUrl == url
      ensures form == old(form) && files == old(files) && uploadedImageUrls == old(uploadedImageUrls)
      ensures isUploading == old(isUploading)
    {
      mainImageUrl := url;
    }

    /** `resetForm`. */
    method ResetForm()
      modifies this
      ensures AtDefaults() && isUploading == old(isUploading)
    {
      form := DefaultForm;
      files := [];
      uploadedImageUrls := [];
      mainImageUrl := "";
    }

    /** `onSubmit`. `upload` is the storage upload of one file, `write` the outcome of the
        record write, and `now1`, `now2` the two clock readings for the dates. */
    method OnSubmit(upload: FileRef -> Result<string>, write: Result<()>, now1: int, now2: int)
      returns (outcome: SubmitOutcome)
      modifies this
      ensures isUploading == (if outcome.NotSubmitted? then old(isUploading) else false)
      ensures outcome == NotSubmitted <==> !AddFormValid(old(form)) || old(files) == []
      ensures outcome.NotSubmitted? || outcome.UploadFailed? ==>
                form == old(form) && files == old(files)
                && uploadedImageUrls == old(uploadedImageUrls) && mainImageUrl == old(mainImageUrl)
      ensures !outcome.NotSubmitted? ==>
                (outcome.UploadFailed? <==> UploadAll(old(files), upload).Failure?)
      ensures outcome.WriteFailed? || outcome.Created? ==>
                var urls := UploadAll(old(files), upload).value;
                outcome.doc == ProductDoc(old(form).name, old(form).description, old(form).price,
                                          old(form).quantity, old(form).isActive, old(form).categories,
                                          ChosenMain(old(mainImageUrl), urls), urls, now1, now2)
      ensures outcome.Created? <==> !outcome.NotSubmitted? && !outcome.UploadFailed? && write.Success?
      ensures outcome.Created? ==> AtDefaults()
      ensures outcome.WriteFailed? ==>
                form == old(form) && files == old(files)
                && uploadedImageUrls == outcome.doc.imageUrls && mainImageUrl == outcome.doc.mainImageUrl
    {
      if !AddFormValid(form) || |files| == 0 {
        return NotSubmitted;
      }
      isUploading := true;
      var urls: seq<string> := [];
      var failed := false;
      var i := 0;
      while i < |files|
        invariant 0 <= i <= |files|
        invariant failed <==> exists j :: 0 <= j < i && upload(files[j]).Failure?
        invariant !failed ==> |urls| == i && forall j :: 0 <= j < i ==> urls[j] == upload(files[j]).value
      {
        var result := upload(files[i]);
        if result.Success? {
          urls := urls + [result.value];
        } else {
          failed := true;
        }
        i := i + 1;
      }
      if failed {
        isUploading := false;
        return UploadFailed;
      }
      assert UploadAll(files, upload).value == urls;
      uploadedImageUrls := urls;
      if mainImageUrl == "" && |uploadedImageUrls| > 0 {
        mainImageUrl := uploadedImageUrls[0];
      }
      var doc := ProductDoc(form.name, form.description, form.price, form.quantity, form.isActive,
                            form.categories, mainImageUrl, uploadedImageUrls, now1, now2);
      if write.Success? {
        ResetForm();
        outcome := Created(doc);
      } else {
        outcome := WriteFailed(doc);
      }
      isUploading := false;
    }
  }
}
