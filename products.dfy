/**
 * The buyer's product catalogue: the supplier list of the filter panel, the product
 * query built from the filters, and the reset of the filters. The category badge
 * colour is `CategoryColor.ColorFor` over `CategoryColor.ChartPalette`.
 */
module Products {
  import opened Wrappers
  import opened Seqs
  import opened Json
  import opened JsText
  import opened QueryParams

  /** The supplier lookup of `loadCompanies`: always page 0 of 100, with the trimmed search when non-blank. */
  datatype CompanyLookup = CompanyLookup(page: int, size: int, name: Option<string>)

  function CompanyLookupOf(companySearch: string): (r: CompanyLookup)
    ensures r.page == 0 && r.size == 100
    ensures r.name == SearchParam(companySearch)
  {
    CompanyLookup(0, 100, SearchParam(companySearch))
  }

  /** `response.data.content || response.data || []`. */
  function CompaniesPayload(data: Json): (r: Json)
    ensures TruthyOpt(Get(data, "content")) ==> r == Get(data, "content").value
    ensures !TruthyOpt(Get(data, "content")) && Truthy(data) ==> r == data
    ensures !TruthyOpt(Get(data, "content")) && !Truthy(data) ==> r == JArr([])
  {
    if TruthyOpt(Get(data, "content")) then Get(data, "content").value
    else if Truthy(data) then data
    else JArr([])
  }

  /** `c.availability !== false`: a company is dropped only when it says outright that it is unavailable. */
  predicate NotUnavailable(c: Json) {
    Get(c, "availability") != Some(JBool(false))
  }

  /**
   * The companies kept by `loadCompanies`: a payload that is not an array gives none;
   * otherwise the companies not marked unavailable, in order. Reading `availability`
   * of a `null` element throws, and the catch empties the list.
   */
  function AvailableCompanies(data: Json): (r: seq<Json>)
    ensures !CompaniesPayload(data).JArr? ==> r == []
    ensures CompaniesPayload(data).JArr? && JNull in CompaniesPayload(data).items ==> r == []
    ensures CompaniesPayload(data).JArr? && JNull !in CompaniesPayload(data).items ==>
              r == Filter(CompaniesPayload(data).items, NotUnavailable)
  {
    var payload := CompaniesPayload(data);
    if !payload.JArr? || JNull in payload.items then []
    else Filter(payload.items, NotUnavailable)
  }

  /** A listed company is one of the payload's and not marked unavailable; one without the flag is listed. */
  lemma AvailableCompaniesMembers(data: Json, c: Json)
    requires CompaniesPayload(data).JArr? && JNull !in CompaniesPayload(data).items
    ensures c in AvailableCompanies(data) <==> c in CompaniesPayload(data).items && NotUnavailable(c)
    ensures c in CompaniesPayload(data).items && Get(c, "availability").None? ==> c in AvailableCompanies(data)
  {
    FilterMembers(CompaniesPayload(data).items, NotUnavailable, c);
  }

  /** A page object without `content` is not an array, so it lists no company. */
  lemma PageWithoutContentListsNothing()
    ensures AvailableCompanies(JObj([Field("totalPages", JNum(1))])) == []
  {
    assert Get(JObj([Field("totalPages", JNum(1))]), "content") == None;
  }

  /** The catalogue filters as the page keeps them. */
  datatype Filters = Filters(searchName: string, category: Option<int>, company: Option<int>,
                             minPrice: Option<int>, maxPrice: Option<int>, page: int, size: int)

  /** The product query of `loadProducts`. */
  datatype ProductQuery = ProductQuery(name: Option<string>, categoryId: Option<int>, companyId: Option<int>,
                                       minPrice: Option<int>, maxPrice: Option<int>, availability: bool,
                                       page: int, size: int)

  /** `name: searchName || undefined` (untrimmed), the other filters as they are, and `availability: true`. */
  function ProductQueryOf(f: Filters): (r: ProductQuery)
    ensures r.name.None? <==> f.searchName == ""
    ensures r.name.Some? ==> r.name.value == f.searchName
    ensures r.availability
    ensures r.categoryId == f.category && r.companyId == f.company
    ensures r.minPrice == f.minPrice && r.maxPrice == f.maxPrice && r.page == f.page && r.size == f.size
  {
    ProductQuery(if f.searchName == "" then None else Some(f.searchName), f.category, f.company,
                 f.minPrice, f.maxPrice, true, f.page, f.size)
  }

  /** `handleClearFilters`: every filter is reset and the page goes back to 0; the page size stays. */
  function ClearFilters(f: Filters): (r: Filters)
    ensures r.searchName == "" && r.category.None? && r.company.None? && r.minPrice.None? && r.maxPrice.None?
    ensures r.page == 0 && r.size == f.size
  {
    Filters("", None, None, None, None, 0, f.size)
  }

  /** After a reset the query asks for the first page of every available product, and a second reset changes nothing. */
  lemma ClearedQueryIsUnfiltered(f: Filters)
    ensures ProductQueryOf(ClearFilters(f)) == ProductQuery(None, None, None, None, None, true, 0, f.size)
    ensures ClearFilters(ClearFilters(f)) == ClearFilters(f)
  {
  }

  /** A blank but non-empty search is sent as typed, unlike the trimmed searches of the other list pages. */
  lemma SpacesAreSearchedFor(f: Filters)
    requires f.searchName == " "
    ensures ProductQueryOf(f).name == Some(" ")
    ensures SearchParam(f.searchName).None?
  {
    assert AllWhiteSpace(f.searchName) by {
      assert IsWhiteSpace(f.searchName[0]);
    }
  }
}
