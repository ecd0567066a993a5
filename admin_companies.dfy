/**
 * The companies administration page: the list query, the availability switch, the
 * type label of a row, and the edit dialog with its logo replacement. The pager is
 * `Pagination.CanPrev`/`CanNext`; failures show `Json.ErrorMessage`.
 *
 * The logo upload service is an input function (`None` is a failed upload) and
 * `Date.now()` an input number.
 */
module AdminCompanies {
  import opened Wrappers
  import opened JsText
  import opened QueryParams
  import opened ImageUpload

  const UpdateFailed := "Failed to update company"

  /** A company as the list returns it; `type` may be missing. */
  datatype CompanyDto = CompanyDto(id: int, name: string, companyType: Option<string>, address: string,
                                   contactEmail: string, logoUrl: Option<string>, availability: bool)

  /** The list query: `page`, `size`, `availability` always; `name` for a non-blank search; `type` once one is chosen. */
  datatype CompanyQuery = CompanyQuery(page: int, size: int, availability: bool, name: Option<string>,
                                       companyType: Option<string>)

  function CompanyQueryOf(page: int, size: int, onlyAvailable: bool, searchName: string, companyType: string)
    : (r: CompanyQuery)
    ensures r.page == page && r.size == size && r.availability == onlyAvailable
    ensures r.name.Some? <==> !AllWhiteSpace(searchName)
    ensures r.name.Some? ==> r.name.value == Trim(searchName)
    ensures r.companyType.Some? <==> companyType != ""
    ensures r.companyType.Some? ==> r.companyType.value == companyType
  {
    CompanyQuery(page, size, onlyAvailable, SearchParam(searchName), if companyType == "" then None else Some(companyType))
  }

  /** `toggleAvailability`: the request asks for the opposite of the company's availability. */
  function ToggleAvailability(c: CompanyDto): (r: (int, bool))
    ensures r.0 == c.id && r.1 == !c.availability
  {
    (c.id, !c.availability)
  }

  /** The type column: ADMIN, BUYER and SELLER in any case get their labels; any other type is shown as it is. */
  function TypeLabel(companyType: Option<string>): (r: Option<string>)
    ensures companyType.None? ==> r.None?
    ensures companyType.Some? && Upper(companyType.value) == "ADMIN" ==> r == Some("Админ")
    ensures companyType.Some? && Upper(companyType.value) == "BUYER" ==> r == Some("Покупатель")
    ensures companyType.Some? && Upper(companyType.value) == "SELLER" ==> r == Some("Продавец")
    ensures companyType.Some? && Upper(companyType.value) !in {"ADMIN", "BUYER", "SELLER"} ==> r == companyType
  {
    if companyType.None? then None
    else
      var t := Upper(companyType.value);
      if t == "ADMIN" then Some("Админ")
      else if t == "BUYER" then Some("Покупатель")
      else if t == "SELLER" then Some("Продавец")
      else companyType
  }

  datatype BadgeClass = AdminBadge | BuyerBadge | SellerBadge

  /** The badge: admin and buyer types get their own; every other type, and a missing one, gets the seller badge. */
  function TypeBadge(companyType: Option<string>): (r: BadgeClass)
    ensures r == AdminBadge <==> companyType.Some? && Upper(companyType.value) == "ADMIN"
    ensures r == BuyerBadge <==> companyType.Some? && Upper(companyType.value) == "BUYER"
  {
    if companyType.Some? && Upper(companyType.value) == "ADMIN" then AdminBadge
    else if companyType.Some? && Upper(companyType.value) == "BUYER" then BuyerBadge
    else SellerBadge
  }

  /** A type the label does not know, such as CUSTOMER (a value the filter mentions), shows raw under the seller badge. */
  lemma UnknownTypeLooksLikeSeller()
    ensures TypeLabel(Some("CUSTOMER")) == Some("CUSTOMER")
    ensures TypeBadge(Some("CUSTOMER")) == SellerBadge
  {
    assert Upper("CUSTOMER") == "CUSTOMER";
  }

  /** The label ignores case: a lower-case seller is labelled like an upper-case one. */
  lemma LabelIgnoresCase()
    ensures TypeLabel(Some("seller")) == TypeLabel(Some("SELLER")) == Some("Продавец")
  {
    assert Upper("seller") == "SELLER";
    assert Upper("SELLER") == "SELLER";
  }

  /** The body of the update request; each field may be absent. */
  datatype CompanyUpdate = CompanyUpdate(name: Option<string>, companyType: Option<string>, address: Option<string>,
                                         contactEmail: Option<string>, logoUrl: Option<string>)

  /** Opening the editor copies the company, with `logoUrl || ''` as the logo. */
  function OpenEditor(c: CompanyDto): (r: CompanyUpdate)
    ensures r.name == Some(c.name) && r.companyType == c.companyType && r.address == Some(c.address)
    ensures r.contactEmail == Some(c.contactEmail)
    ensures c.logoUrl.Some? && c.logoUrl.value != "" ==> r.logoUrl == c.logoUrl
    ensures c.logoUrl.None? || c.logoUrl.value == "" ==> r.logoUrl == Some("")
  {
    CompanyUpdate(Some(c.name), c.companyType, Some(c.address), Some(c.contactEmail),
                  Some(if c.logoUrl.Some? && c.logoUrl.value != "" then c.logoUrl.value else ""))
  }

  /** What `doUpdate` does. */
  datatype UpdateOutcome =
    | NotEditing                               // no company in the editor: nothing happens
    | UploadFailed                             // the logo upload failed: no update is sent
    | PutCompany(id: int, body: CompanyUpdate)

  /**
   * `doUpdate`: with a newly selected file the logo is uploaded under the generated
   * name and the form's logo is replaced by the optimised URL; without one the form
   * is sent as edited.
   */
  function DoUpdate(editing: Option<CompanyDto>, form: CompanyUpdate, selected: Option<ImageFile>, timestamp: int,
                    upload: (ImageFile, string) -> Option<string>): (r: UpdateOutcome)
    ensures r.NotEditing? <==> editing.None?
    ensures r.UploadFailed? <==> editing.Some? && selected.Some?
                                 && upload(selected.value, GenerateLogoFileName(editing.value.name, selected.value.name, timestamp)).None?
    ensures r.PutCompany? ==> r.id == editing.value.id
    ensures r.PutCompany? && selected.None? ==> r.body == form
    ensures r.PutCompany? && selected.Some? ==>
              var url := upload(selected.value, GenerateLogoFileName(editing.value.name, selected.value.name, timestamp));
              url.Some? && r.body == form.(logoUrl := Some(OptimizeImageUrl(url.value)))
  {
    if editing.None? then NotEditing
    else if selected.None? then PutCompany(editing.value.id, form)
    else
      var url := upload(selected.value, GenerateLogoFileName(editing.value.name, selected.value.name, timestamp));
      if url.None? then UploadFailed
      else PutCompany(editing.value.id, form.(logoUrl := Some(OptimizeImageUrl(url.value))))
  }

  /** A newly uploaded logo is sent already in display form: rewriting it for display changes nothing. */
  lemma UploadedLogoIsDisplayReady(editing: Option<CompanyDto>, form: CompanyUpdate, selected: ImageFile, timestamp: int,
                                   upload: (ImageFile, string) -> Option<string>)
    requires DoUpdate(editing, form, Some(selected), timestamp, upload).PutCompany?
    ensures var body := DoUpdate(editing, form, Some(selected), timestamp, upload).body;
            body.logoUrl.Some? && OptimizeImageUrl(body.logoUrl.value) == body.logoUrl.value
  {
    var url := upload(selected, GenerateLogoFileName(editing.value.name, selected.name, timestamp));
    OptimizeIdempotent(url.value);
  }

  /** Saving the editor of a company without a logo, with no file chosen, sends '' as the logo. */
  lemma UntouchedEditorSendsEmptyLogo(c: CompanyDto, timestamp: int, upload: (ImageFile, string) -> Option<string>)
    requires c.logoUrl.None?
    ensures DoUpdate(Some(c), OpenEditor(c), None, timestamp, upload) == PutCompany(c.id, OpenEditor(c))
    ensures OpenEditor(c).logoUrl == Some("")
  {
  }
}
