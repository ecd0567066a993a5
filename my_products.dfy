/**
 * The seller's products page: the products query (made only once the company is
 * known), the create flow (the company is checked before any image is uploaded),
 * and the status switch. Image selection and removal are `ProductImages.AddImages`
 * and `ProductImages.RemoveImage`; the pager is `Pagination.CanPrev`/`CanNext`.
 */
module MyProducts {
  import opened Wrappers
  import opened JsText
  import opened Domain
  import opened QueryParams
  import opened ImageUpload
  import opened ProductImages

  /** The products query: `companyId`, `page`, `size`, the trimmed name when non-blank, `availability`. */
  datatype ProductQuery = ProductQuery(companyId: int, page: int, size: int, name: Option<string>, availability: bool)

  /** `load`: skipped while the company id is unknown or 0 (`!companyId`). */
  function LoadProducts(companyId: Option<int>, page: int, size: int, searchName: string, onlyActive: bool)
    : (r: Option<ProductQuery>)
    ensures r.None? <==> companyId.None? || companyId.value == 0
    ensures r.Some? ==> r.value.companyId == companyId.value && r.value.page == page && r.value.size == size
                        && r.value.availability == onlyActive
    ensures r.Some? ==> (r.value.name.Some? <==> !AllWhiteSpace(searchName))
    ensures r.Some? && r.value.name.Some? ==> r.value.name.value == Trim(searchName)
  {
    if companyId.None? || companyId.value == 0 then None
    else Some(ProductQuery(companyId.value, page, size, SearchParam(searchName), onlyActive))
  }

  /**
   * `doCreate`: without a company id nothing happens at all; otherwise the images are
   * uploaded in order and, when every upload succeeded, the product is created with
   * their URLs. A failed upload ends the submission with an error and no product.
   */
  method DoCreate(companyId: Option<int>, form: ProductForm, images: seq<ImageFile>, clock: seq<int>, skuStamp: int,
                  upload: (ImageFile, string) -> Option<string>, uploadError: string)
    returns (s: Submission)
    requires |clock| == |images|
    ensures companyId.None? || companyId.value == 0 ==> s == Submission(None, [], None)
    ensures s.created.Some? ==> companyId.Some? && companyId.value != 0
                                && s.created.value.companyId == companyId.value
                                && |s.created.value.imageUrls| == |images| == |s.uploads|
                                && s.created.value.sku == SkuOf(form.sku, skuStamp)
                                && forall i :: 0 <= i < |images| ==>
                                     s.uploads[i] == ProductFileName(form.name, clock[i], i)
                                     && upload(images[i], s.uploads[i]) == Some(s.created.value.imageUrls[i])
    ensures s.created.None? && companyId.Some? && companyId.value != 0 ==> s.error == Some(uploadError)
    ensures companyId.Some? && companyId.value != 0
            && (forall i :: 0 <= i < |images| ==> upload(images[i], ProductFileName(form.name, clock[i], i)).Some?) ==>
              s.created.Some? && |s.uploads| == |images|
  {
    if companyId.None? || companyId.value == 0 {
      return Submission(None, [], None);
    }
    var urls, names, failed := UploadImages(images, form.name, clock, upload);
    if failed {
      return Submission(None, names, Some(uploadError));
    }
    s := Submission(Some(ProductDtoOf(companyId.value, form, skuStamp, urls)), names, None);
  }

  /** `toggleStatus`: the request asks for the opposite of the product's current state. */
  function ToggleStatus(p: Product): (r: (int, bool))
    ensures r.0 == p.id && r.1 != p.isActive
  {
    (p.id, !p.isActive)
  }

  /** Switching twice asks for the state the product started in. */
  lemma ToggleStatusTwice(p: Product)
    ensures ToggleStatus(p.(isActive := ToggleStatus(p).1)).1 == p.isActive
  {
  }
}
