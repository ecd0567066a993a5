/**
 * The product image list that the seller's products page and the add-product page
 * both keep: a batch of selected files is accepted whole or not at all (at most five
 * images, every file valid), an image is removed by index, and on submission the
 * files are uploaded one after the other under generated names.
 *
 * `Date.now()` is read afresh for every file name; the readings are an input
 * sequence. The upload service is an input function; `None` is an upload that fails.
 */
module ProductImages {
  import opened Wrappers
  import opened JsText
  import opened Seqs
  import opened ImageUpload

  const MaxImages := 5
  const TooManyImages := "Максимум 5 изображений"

  // ---------------------------------------------------------------- selecting files

  /** The error of the first file that fails validation, if any. */
  function FirstInvalid(files: seq<ImageFile>): (r: Option<string>)
    ensures r.None? <==> forall i :: 0 <= i < |files| ==> ValidateImageFile(files[i]).Valid?
    ensures r.Some? ==> exists i :: 0 <= i < |files| && ValidateImageFile(files[i]) == Invalid(r.value)
                                    && forall j :: 0 <= j < i ==> ValidateImageFile(files[j]).Valid?
    decreases |files|
  {
    if files == [] then None
    else
      var v := ValidateImageFile(files[0]);
      if v.Invalid? then Some(v.error)
      else
        var rest := FirstInvalid(files[1..]);
        assert forall i :: 1 <= i < |files| ==> files[i] == files[1..][i - 1];
        if rest.Some? then
          var k :| 0 <= k < |files[1..]| && ValidateImageFile(files[1..][k]) == Invalid(rest.value)
                   && forall j :: 0 <= j < k ==> ValidateImageFile(files[1..][j]).Valid?;
          assert ValidateImageFile(files[k + 1]) == Invalid(rest.value);
          rest
        else rest
  }

  /**
   * `handleImageChange`: a batch that would take the list past five is refused with
   * 'Максимум 5 изображений'; then the files are validated in order and the first
   * failure refuses the batch with its error; otherwise the batch is appended in
   * selection order. `error` is the message set, if any.
   */
  method AddImages(existing: seq<ImageFile>, files: seq<ImageFile>) returns (images: seq<ImageFile>, error: Option<string>)
    ensures images == existing || images == existing + files
    ensures |existing| + |files| > MaxImages ==> images == existing && error == Some(TooManyImages)
    ensures |existing| + |files| <= MaxImages ==> error == FirstInvalid(files)
    ensures error.None? ==> images == existing + files
    ensures error.Some? ==> images == existing
    ensures |existing| <= MaxImages ==> |images| <= MaxImages
  {
    if |files| + |existing| > MaxImages {
      return existing, Some(TooManyImages);
    }
    for i := 0 to |files|
      invariant forall j :: 0 <= j < i ==> ValidateImageFile(files[j]).Valid?
    {
      var validation := ValidateImageFile(files[i]);
      if validation.Invalid? {
        var e := FirstInvalid(files);
        var k :| 0 <= k < |files| && ValidateImageFile(files[k]) == Invalid(e.value)
                 && forall j :: 0 <= j < k ==> ValidateImageFile(files[j]).Valid?;
        assert k == i;
        return existing, Some(validation.error);
      }
    }
    images, error := existing + files, None;
  }

  /**
   * A batch refused for an invalid file carries the validator's type or size message, so
   * the fallback 'Ошибка валидации файла' of `handleImageChange` is never shown.
   */
  lemma BatchRefusedOnlyForInvalidFile(files: seq<ImageFile>)
    ensures FirstInvalid(files).Some? ==> FirstInvalid(files).value in {TypeError, SizeError}
  {
    var e := FirstInvalid(files);
    if e.Some? {
      var k :| 0 <= k < |files| && ValidateImageFile(files[k]) == Invalid(e.value);
    }
  }

  /** `handleRemoveImage(index)`: element `index` leaves both the files and the previews. */
  function RemoveImage<P>(files: seq<ImageFile>, previews: seq<P>, index: int): (r: (seq<ImageFile>, seq<P>))
    ensures r.0 == RemoveAt(files, index) && r.1 == RemoveAt(previews, index)
    ensures 0 <= index < |files| ==> |r.0| == |files| - 1
  {
    (RemoveAt(files, index), RemoveAt(previews, index))
  }

  /** Removing the image just added gives the list back. */
  lemma RemoveUndoesAdd(existing: seq<ImageFile>, f: ImageFile)
    ensures RemoveAt(existing + [f], |existing|) == existing
  {
    assert (existing + [f])[..|existing|] == existing;
  }

  // ---------------------------------------------------------------- uploading

  predicate IsAsciiAlnum(c: char) {
    'a' <= c <= 'z' || 'A' <= c <= 'Z' || '0' <= c <= '9'
  }

  /** `name.replace(/[^a-z0-9]/gi, '_')`: every character other than an ASCII letter or digit becomes '_'. */
  function SafeProductName(name: string): (r: string)
    ensures |r| == |name|
    ensures forall i :: 0 <= i < |r| ==> (IsAsciiAlnum(name[i]) ==> r[i] == name[i]) && (!IsAsciiAlnum(name[i]) ==> r[i] == '_')
  {
    seq(|name|, i requires 0 <= i < |name| => if IsAsciiAlnum(name[i]) then name[i] else '_')
  }

  /** `product_${safe name}_${Date.now()}_${i}`. */
  function ProductFileName(name: string, stamp: int, index: nat): string {
    "product_" + SafeProductName(name) + "_" + IntText(stamp) + "_" + NatText(index)
  }

  /** Two files of one submission never share a name, whatever the clock reads. */
  lemma ProductFileNamesDistinct(name: string, a: int, i: nat, b: int, j: nat)
    requires i != j
    ensures ProductFileName(name, a, i) != ProductFileName(name, b, j)
  {
    if ProductFileName(name, a, i) == ProductFileName(name, b, j) {
      var p := "product_" + SafeProductName(name) + "_" + IntText(a);
      var q := "product_" + SafeProductName(name) + "_" + IntText(b);
      assert ProductFileName(name, a, i) == p + ['_'] + NatText(i);
      assert ProductFileName(name, b, j) == q + ['_'] + NatText(j);
      CounterSuffixInjective(p, q, '_', i, j);
    }
  }

  /** The name of every file of a submission, `clock[i]` being the `Date.now()` read for file `i`. */
  function FileNames(name: string, clock: seq<int>): (r: seq<string>)
    ensures |r| == |clock|
    ensures forall i :: 0 <= i < |clock| ==> r[i] == ProductFileName(name, clock[i], i)
  {
    seq(|clock|, i requires 0 <= i < |clock| => ProductFileName(name, clock[i], i))
  }

  /**
   * The upload loop: file `i` goes up under `ProductFileName(name, clock[i], i)`, and
   * its URL is pushed in order. The first failing upload ends the loop; `names` lists
   * the uploads attempted.
   */
  method UploadImages(files: seq<ImageFile>, name: string, clock: seq<int>, upload: (ImageFile, string) -> Option<string>)
    returns (urls: seq<string>, names: seq<string>, failed: bool)
    requires |clock| == |files|
    ensures |urls| <= |names| <= |files|
    ensures names == FileNames(name, clock)[..|names|]
    ensures forall i :: 0 <= i < |urls| ==> upload(files[i], names[i]) == Some(urls[i])
    ensures !failed <==> |urls| == |files|
    ensures !failed ==> |names| == |files|
    ensures failed ==> |names| == |urls| + 1 && upload(files[|urls|], names[|urls|]).None?
  {
    var all := FileNames(name, clock);
    urls := [];
    for i := 0 to |files|
      invariant |urls| == i
      invariant forall k :: 0 <= k < i ==> upload(files[k], all[k]) == Some(urls[k])
    {
      var url := upload(files[i], all[i]);
      if url.None? {
        return urls, all[..i + 1], true;
      }
      urls := urls + [url.value];
    }
    names, failed := all, false;
  }

  /** `form.sku || \`SKU-${Date.now()}\``: the typed SKU, or a generated one when the field is empty. */
  function SkuOf(formSku: string, stamp: int): (r: string)
    ensures r != ""
    ensures formSku != "" ==> r == formSku
    ensures formSku == "" ==> StartsWith(r, "SKU-") && r[4..] == IntText(stamp)
  {
    if formSku != "" then formSku else "SKU-" + IntText(stamp)
  }

  /** The product form as typed; the numeric fields are sent as `parseFloat`/`parseInt` of these texts. */
  datatype ProductForm = ProductForm(name: string, description: string, netPrice: string, sku: string, stock: string,
                                     categoryId: string)

  /** The body of the create request. */
  datatype ProductDto = ProductDto(companyId: int, name: string, description: string, netPrice: string, sku: string,
                                   stock: string, categoryId: string, imageUrls: seq<string>)

  function ProductDtoOf(companyId: int, form: ProductForm, skuStamp: int, imageUrls: seq<string>): (r: ProductDto)
    ensures r.companyId == companyId && r.name == form.name && r.imageUrls == imageUrls
    ensures r.sku == SkuOf(form.sku, skuStamp)
  {
    ProductDto(companyId, form.name, form.description, form.netPrice, SkuOf(form.sku, skuStamp), form.stock,
               form.categoryId, imageUrls)
  }

  /** The outcome of a submission: the create request sent (if any), the uploads attempted, and the error set. */
  datatype Submission = Submission(created: Option<ProductDto>, uploads: seq<string>, error: Option<string>)
}
