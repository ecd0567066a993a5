/**
 * The add-product page: field edits, the category list, and the submission. Unlike
 * the products page, this page uploads the images before it checks that the
 * company is known. Image selection and removal are `ProductImages.AddImages` and
 * `ProductImages.RemoveImage`.
 */
module AddProduct {
  import opened Wrappers
  import opened Domain
  import opened ImageUpload
  import opened ProductImages

  const NoCompanyError := "Не удалось определить компанию пользователя"
  const CategoriesError := "Ошибка загрузки категорий"

  /** `setFormData(prev => ({ ...prev, [name]: value }))`: the form as a map from field name to text. */
  function InputChange(form: map<string, string>, name: string, value: string): (r: map<string, string>)
    ensures name in r && r[name] == value
    ensures forall k :: k != name ==> (k in r <==> k in form) && (k in form ==> r[k] == form[k])
  {
    form[name := value]
  }

  /** Editing the same field twice keeps only the last value. */
  lemma LastEditWins(form: map<string, string>, name: string, v1: string, v2: string)
    ensures InputChange(InputChange(form, name, v1), name, v2) == InputChange(form, name, v2)
  {
  }

  /**
   * `loadCategories`: the fetched page is never stored, so the list keeps what it had;
   * a failed request (`None`) sets 'Ошибка загрузки категорий'.
   */
  function LoadCategories(categories: seq<Category>, fetched: Option<Page<Category>>): (r: (seq<Category>, Option<string>))
    ensures r.0 == categories
    ensures r.1.Some? <==> fetched.None?
    ensures r.1.Some? ==> r.1.value == CategoriesError
  {
    (categories, if fetched.None? then Some(CategoriesError) else None)
  }

  /** The list starts empty and stays empty, whatever the server returns. */
  lemma CategoriesStayEmpty(fetched: Option<Page<Category>>)
    ensures LoadCategories([], fetched).0 == []
  {
  }

  /**
   * `handleSubmit`: every image is uploaded first; only then is the company id checked,
   * and without one no product is created and 'Не удалось определить компанию
   * пользователя' is set. A failed upload ends the submission with its error.
   */
  method HandleSubmit(companyId: Option<int>, form: ProductForm, images: seq<ImageFile>, clock: seq<int>, skuStamp: int,
                      upload: (ImageFile, string) -> Option<string>, uploadError: string)
    returns (s: Submission)
    requires |clock| == |images|
    ensures s.created.Some? ==> companyId.Some? && companyId.value != 0
                                && s.created.value.companyId == companyId.value
                                && s.created.value.sku == SkuOf(form.sku, skuStamp)
                                && |s.created.value.imageUrls| == |images| == |s.uploads|
                                && forall i :: 0 <= i < |images| ==>
                                     s.uploads[i] == ProductFileName(form.name, clock[i], i)
                                     && upload(images[i], s.uploads[i]) == Some(s.created.value.imageUrls[i])
    ensures (forall i :: 0 <= i < |images| ==> upload(images[i], ProductFileName(form.name, clock[i], i)).Some?) ==>
              |s.uploads| == |images|
              && (companyId.None? || companyId.value == 0 ==> s.created.None? && s.error == Some(NoCompanyError))
              && (companyId.Some? && companyId.value != 0 ==> s.created.Some?)
    ensures s.created.None? ==> s.error.Some?
  {
    var urls, names, failed := UploadImages(images, form.name, clock, upload);
    if failed {
      return Submission(None, names, Some(uploadError));
    }
    if companyId.None? || companyId.value == 0 {
      return Submission(None, names, Some(NoCompanyError));
    }
    s := Submission(Some(ProductDtoOf(companyId.value, form, skuStamp, urls)), names, None);
  }
}
