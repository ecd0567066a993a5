/**
 * The director's own-company page: finding the company through the e-mail in the
 * access token, the users query (only once the company is known), the company
 * editor's "remove logo" action, and the availability switch of the users table.
 * The avatar is `CompanyUsers.AvatarOf`; the pager is `Pagination.CanPrev`,
 * `Pagination.CanNext` and `Pagination.UsersIndicator`.
 */
module MyCompany {
  import opened Wrappers
  import opened JsText
  import opened Json
  import opened QueryParams
  import opened CompanyUsers
  import opened TokenUser

  const CompanyByUserPath := "/user-service/companies/user/"

  /**
   * `loadCompany`: with no e-mail in the token it fails with 'User email not found in
   * token' before any request; otherwise it requests the company of that e-mail.
   */
  function LoadCompany(accessToken: Option<string>, decodeToken: string -> Option<Json>): (r: Result<string, string>)
    ensures r.Err? <==> EmailClaim(accessToken, decodeToken).None?
    ensures r.Err? ==> r.error == "User email not found in token"
    ensures r.Ok? ==> r.value == CompanyByUserPath + ToText(EmailClaim(accessToken, decodeToken).value)
  {
    var email := EmailClaim(accessToken, decodeToken);
    if email.None? then Err("User email not found in token") else Ok(CompanyByUserPath + ToText(email.value))
  }

  /** Without a token there is no company request. */
  lemma NoTokenNoCompany(decodeToken: string -> Option<Json>)
    ensures LoadCompany(None, decodeToken).Err?
    ensures LoadCompany(Some(""), decodeToken).Err?
  {
  }

  /** `loadUsers`: nothing before the company is loaded; then the users query of that company. */
  function LoadUsers(companyId: Option<int>, page: int, size: int, onlyAvailable: bool, search: string)
    : (r: Option<UserQuery>)
    ensures r.None? <==> companyId.None?
    ensures r.Some? ==> r.value.companyId == companyId.value && r.value.page == page && r.value.size == size
                        && r.value.availability == onlyAvailable
    ensures r.Some? ==> (r.value.fullName.Some? <==> Trim(search) != "")
    ensures r.Some? && r.value.fullName.Some? ==> r.value.fullName.value == Trim(search)
  {
    if companyId.None? then None
    else
      TrimIsEmpty(search);
      Some(UserQueryOf(page, size, companyId.value, onlyAvailable, search))
  }

  /**
   * The company editor's form. Each field may be absent (`None`); `logoUrl` may also be
   * present and `null` (`Some(None)`).
   */
  datatype CompanyUpdateForm = CompanyUpdateForm(name: Option<string>, companyType: Option<string>,
                                                 address: Option<string>, contactEmail: Option<string>,
                                                 logoUrl: Option<Option<string>>)

  /** `removeLogo`: `logo_url` becomes `null`, every other field stays as edited. */
  function RemoveLogo(form: CompanyUpdateForm): (r: CompanyUpdateForm)
    ensures r.logoUrl == Some(None)
    ensures r.name == form.name && r.companyType == form.companyType && r.address == form.address
            && r.contactEmail == form.contactEmail
  {
    form.(logoUrl := Some(None))
  }

  /** Removing the logo twice is the same as removing it once. */
  lemma RemoveLogoIdempotent(form: CompanyUpdateForm)
    ensures RemoveLogo(RemoveLogo(form)) == RemoveLogo(form)
  {
  }

  /** The availability switch of a user row is disabled for the role written exactly 'DIRECTOR'. */
  predicate SwitchDisabled(u: UserDto) {
    u.role == "DIRECTOR"
  }

  /** The role badge of the same row compares the upper-cased role. */
  predicate DirectorBadge(u: UserDto) {
    IsDirectorRole(u.role)
  }

  /**
   * Every user whose switch is disabled wears the director badge, but the converse
   * fails: a role written 'director' shows the badge and keeps its switch enabled.
   */
  lemma SwitchIsCaseSensitive(u: UserDto, v: UserDto)
    requires v.role == "director"
    ensures SwitchDisabled(u) ==> DirectorBadge(u)
    ensures DirectorBadge(v) && !SwitchDisabled(v)
  {
    assert Upper(v.role) == "DIRECTOR";
  }
}
