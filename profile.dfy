/**
 * The profile page: loading the signed-in user's profile (with a fallback built
 * from the token when the request fails), the id guard of the profile update, and
 * the checks of the password change. Response bodies are JSON values; `None` is a
 * request that failed.
 */
module Profile {
  import opened Wrappers
  import opened Json
  import opened TokenUser
  import opened AuthContext

  /** `v || fallback`. */
  function Or(v: Option<Json>, fallback: Json): (r: Json)
    ensures TruthyOpt(v) ==> r == v.value
    ensures !TruthyOpt(v) ==> r == fallback
  {
    if TruthyOpt(v) then v.value else fallback
  }

  /** The profile state; `id` is `undefined` (`None`) when the response has none. */
  datatype UserProfile = UserProfile(id: Option<Json>, name: Json, surname: Json, birthDate: Json, email: Json)

  /** The profile built from the token alone when the request fails. */
  function FallbackProfile(email: Json): UserProfile {
    UserProfile(Some(JNum(0)), JStr(""), JStr(""), JStr(""), email)
  }

  /**
   * `loadProfile`. Without an e-mail in the token nothing is requested and no profile
   * is set. A failed request, or a `null` body (reading its fields throws), falls back
   * to a profile with id 0 and the token's e-mail. Otherwise missing name, surname and
   * birth date become '' and a missing e-mail becomes the token's.
   */
  function LoadProfile(accessToken: Option<string>, decodeToken: string -> Option<Json>, response: Option<Json>)
    : (r: Option<UserProfile>)
    ensures r.None? <==> EmailClaim(accessToken, decodeToken).None?
    ensures r.Some? && (response.None? || response.value.JNull?) ==>
              r.value == FallbackProfile(EmailClaim(accessToken, decodeToken).value)
    ensures r.Some? ==> Truthy(r.value.email)
    ensures r.Some? && response.Some? && !response.value.JNull? ==>
              r.value.id == Get(response.value, "id")
    ensures r.Some? && response.Some? && !response.value.JNull? ==>
              var d := response.value;
              (TruthyOpt(Get(d, "name")) ==> r.value.name == Get(d, "name").value)
              && (!TruthyOpt(Get(d, "name")) ==> r.value.name == JStr(""))
              && (TruthyOpt(Get(d, "surname")) ==> r.value.surname == Get(d, "surname").value)
              && (!TruthyOpt(Get(d, "surname")) ==> r.value.surname == JStr(""))
              && (TruthyOpt(Get(d, "birthDate")) ==> r.value.birthDate == Get(d, "birthDate").value)
              && (!TruthyOpt(Get(d, "birthDate")) ==> r.value.birthDate == JStr(""))
              && (TruthyOpt(Get(d, "email")) ==> r.value.email == Get(d, "email").value)
              && (!TruthyOpt(Get(d, "email")) ==> r.value.email == EmailClaim(accessToken, decodeToken).value)
  {
    var email := EmailClaim(accessToken, decodeToken);
    if email.None? then None
    else if response.None? || response.value.JNull? then Some(FallbackProfile(email.value))
    else
      var d := response.value;
      Some(UserProfile(Get(d, "id"), Or(Get(d, "name"), JStr("")), Or(Get(d, "surname"), JStr("")),
                       Or(Get(d, "birthDate"), JStr("")), Or(Get(d, "email"), email.value)))
  }

  /** What `handleProfileUpdate` does: refuse before any request, or PUT to the user id. */
  datatype UpdateOutcome = UpdateRefused(message: string) | PutProfile(id: Json)

  /**
   * `if (!profile?.id) throw new Error('User ID not found')`. The thrown error has no
   * response, so the message shown is the generic 'Ошибка при обновлении профиля'.
   */
  function ProfileUpdate(profile: Option<UserProfile>): (r: UpdateOutcome)
    ensures r.UpdateRefused? <==> profile.None? || !TruthyOpt(profile.value.id)
    ensures r.UpdateRefused? ==> r.message == "Ошибка при обновлении профиля"
    ensures r.PutProfile? ==> Truthy(r.id) && r.id == profile.value.id.value
  {
    if profile.None? || !TruthyOpt(profile.value.id) then UpdateRefused("Ошибка при обновлении профиля")
    else PutProfile(profile.value.id.value)
  }

  /** A fallback profile (id 0) can never be saved. */
  lemma FallbackNeverSaved(accessToken: Option<string>, decodeToken: string -> Option<Json>)
    ensures ProfileUpdate(LoadProfile(accessToken, decodeToken, None)).UpdateRefused?
  {
  }

  datatype PasswordForm = PasswordForm(oldPassword: string, newPassword: string, repeatPassword: string)

  /** What `handlePasswordChange` does. */
  datatype PasswordOutcome =
    | Mismatch(message: string)              // refused before any request
    | NoEmail(message: string)               // refused, after the loading flag is set
    | PutPassword(email: Json, body: PasswordForm)

  /**
   * Different new passwords are refused with 'Новые пароли не совпадают'. Then the e-mail
   * is the profile's, else the one the auth context holds; without either the thrown
   * error shows the generic 'Ошибка при смене пароля'. The body carries all three fields.
   */
  function PasswordChange(profile: Option<UserProfile>, contextEmail: Option<Json>, form: PasswordForm)
    : (r: PasswordOutcome)
    ensures r.Mismatch? <==> form.newPassword != form.repeatPassword
    ensures r.Mismatch? ==> r.message == "Новые пароли не совпадают"
    ensures r.PutPassword? ==> r.body == form && Truthy(r.email) && form.newPassword == form.repeatPassword
    ensures r.PutPassword? && profile.Some? && Truthy(profile.value.email) ==> r.email == profile.value.email
    ensures r.PutPassword? && (profile.None? || !Truthy(profile.value.email)) ==> contextEmail == Some(r.email)
    ensures r.NoEmail? <==> form.newPassword == form.repeatPassword
                            && (profile.None? || !Truthy(profile.value.email)) && !TruthyOpt(contextEmail)
  {
    if form.newPassword != form.repeatPassword then Mismatch("Новые пароли не совпадают")
    else
      var email :=
        if profile.Some? && Truthy(profile.value.email) then profile.value.email
        else if contextEmail.Some? then contextEmail.value
        else JNull;
      if !Truthy(email) then NoEmail("Ошибка при смене пароля") else PutPassword(email, form)
  }

  /** After a successful change all three fields are cleared. */
  function AfterPasswordSaved(form: PasswordForm): (r: PasswordForm)
    ensures r.oldPassword == "" && r.newPassword == "" && r.repeatPassword == ""
  {
    PasswordForm("", "", "")
  }

  /**
   * Every loaded profile carries a truthy e-mail, so a password change with matching
   * passwords always reaches the request once a profile is loaded, whatever e-mail the
   * auth context holds, and it goes to the profile's e-mail.
   */
  lemma LoadedProfileCanChangePassword(accessToken: Option<string>, decodeToken: string -> Option<Json>,
                                       response: Option<Json>, contextEmail: Option<Json>, form: PasswordForm)
    requires LoadProfile(accessToken, decodeToken, response).Some?
    requires form.newPassword == form.repeatPassword
    ensures PasswordChange(LoadProfile(accessToken, decodeToken, response), contextEmail, form).PutPassword?
    ensures PasswordChange(LoadProfile(accessToken, decodeToken, response), contextEmail, form).email
              == LoadProfile(accessToken, decodeToken, response).value.email
  {
  }

  /**
   * Before a profile is loaded the change goes to the auth context's e-mail, the token's
   * `sub` claim: it reaches the request exactly when that claim is truthy.
   */
  lemma UnloadedProfileUsesTokenSubject(accessToken: Option<string>, decodeToken: string -> Option<Json>,
                                        form: PasswordForm)
    requires form.newPassword == form.repeatPassword
    ensures PasswordChange(None, ContextEmail(accessToken, decodeToken), form).PutPassword? <==>
              ContextEmail(accessToken, decodeToken).Some?
    ensures PasswordChange(None, ContextEmail(accessToken, decodeToken), form).PutPassword? ==>
              Some(PasswordChange(None, ContextEmail(accessToken, decodeToken), form).email)
                == Get(decodeToken(accessToken.value).value, "sub")
  {
  }
}
