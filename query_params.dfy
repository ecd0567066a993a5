/**
 * The optional text parameter the list pages add to their queries: the search box
 * content, trimmed, sent only when something is left after trimming.
 */
module QueryParams {
  import opened Wrappers
  import opened JsText

  /** `if (search.trim()) params.name = search.trim()`. */
  function SearchParam(search: string): (r: Option<string>)
    ensures r.Some? <==> !AllWhiteSpace(search)
    ensures r.Some? ==> r.value != "" && r.value == Trim(search)
  {
    TrimIsEmpty(search);
    if Trim(search) != "" then Some(Trim(search)) else None
  }

  /** The query the user-list pages send (`page`, `size`, `companyId`, `availability`, optional `fullName`). */
  datatype UserQuery = UserQuery(page: int, size: int, companyId: int, availability: bool, fullName: Option<string>)

  function UserQueryOf(page: int, size: int, companyId: int, onlyAvailable: bool, search: string): (q: UserQuery)
    ensures q.page == page && q.size == size && q.companyId == companyId && q.availability == onlyAvailable
    ensures q.fullName.Some? <==> !AllWhiteSpace(search)
    ensures q.fullName == SearchParam(search)
    ensures q.fullName.Some? ==> q.fullName.value == Trim(search)
  {
    UserQuery(page, size, companyId, onlyAvailable, SearchParam(search))
  }
}
