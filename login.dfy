/**
 * The login form: required-field validation that shows only after a submit, and
 * the request it sends. The fields are checked trimmed but sent as typed.
 */
module Login {
  import opened Wrappers
  import opened JsText
  import opened Json
  import opened AuthContext

  datatype LoginForm = LoginForm(email: string, password: string, submitted: bool, error: string)

  /** `emailEmpty`: the field is shown invalid only after a submit, and only when blank. */
  predicate EmailFlagged(f: LoginForm) {
    f.submitted && Trim(f.email) == ""
  }

  /** `passwordEmpty`. */
  predicate PasswordFlagged(f: LoginForm) {
    f.submitted && Trim(f.password) == ""
  }

  /** The body of `POST /auth/login`. */
  datatype Credentials = Credentials(email: string, password: string)

  /**
   * `onSubmit`: the error is cleared and the form marked submitted; the request is made
   * only when neither field is blank after trimming, and carries the fields as typed.
   */
  function Submit(f: LoginForm): (r: (LoginForm, Option<Credentials>))
    ensures r.0 == f.(submitted := true, error := "")
    ensures r.1.None? <==> AllWhiteSpace(f.email) || AllWhiteSpace(f.password)
    ensures r.1.Some? ==> r.1.value == Credentials(f.email, f.password)
  {
    TrimIsEmpty(f.email);
    TrimIsEmpty(f.password);
    var next := f.(submitted := true, error := "");
    if Trim(f.email) == "" || Trim(f.password) == "" then (next, None)
    else (next, Some(Credentials(f.email, f.password)))
  }

  /** Before any submit nothing is flagged; after a refused submit a blank field is. */
  lemma RefusedSubmitFlagsABlankField(f: LoginForm)
    ensures !f.submitted ==> !EmailFlagged(f) && !PasswordFlagged(f)
    ensures Submit(f).1.None? <==> EmailFlagged(Submit(f).0) || PasswordFlagged(Submit(f).0)
  {
  }

  /** Surrounding spaces pass the check and are sent as typed. */
  lemma PaddedEmailSentAsTyped(f: LoginForm)
    requires f.email == " a" && f.password == "p"
    ensures Submit(f).1 == Some(Credentials(" a", "p"))
  {
    assert !IsWhiteSpace(f.email[1]);
    assert !IsWhiteSpace(f.password[0]);
  }

  /**
   * The tokens read from the body of a successful request, `res.data.accessToken` and
   * `res.data.refreshToken`. Reading a property of a `null` body throws (`None`); any
   * other body yields its two properties, `undefined` where it has none.
   */
  function TokensOf(response: Json): (r: Option<(Option<Json>, Option<Json>)>)
    ensures r.None? <==> response.JNull?
    ensures r.Some? ==> r.value.0 == Get(response, "accessToken") && r.value.1 == Get(response, "refreshToken")
  {
    if response.JNull? then None
    else Some((Get(response, "accessToken"), Get(response, "refreshToken")))
  }

  /** The fallback of the error shown after a failed request (see `Json.ErrorMessage`). */
  const LoginFailed := "Ошибка входа"

  /** How the awaited `POST /auth/login` settles: with a body, or rejected. */
  datatype LoginOutcome =
    | Answered(body: Json)
    | Rejected(responseMessage: Option<Json>, errorMessage: Option<Json>)

  /** What `onSubmit` does once the request settles. */
  datatype AfterLogin =
    | LoggedIn(accessToken: Option<Json>, refreshToken: Option<Json>)
    | ShowError(message: Json)

  /**
   * The `try`/`catch` around the request: `login` with the tokens read from the body,
   * or the catch branch's message. A `null` body makes the read throw a `TypeError`
   * whose text (`nullReadMessage`, worded by the engine) the catch branch shows; such
   * an error carries no `response`.
   */
  function Settle(outcome: LoginOutcome, nullReadMessage: string): (r: AfterLogin)
    ensures r.LoggedIn? <==> outcome.Answered? && !outcome.body.JNull?
    ensures r.LoggedIn? ==> r.accessToken == Get(outcome.body, "accessToken")
                            && r.refreshToken == Get(outcome.body, "refreshToken")
    ensures outcome.Rejected? ==>
              r == ShowError(ErrorMessage(outcome.responseMessage, outcome.errorMessage, LoginFailed))
  {
    match outcome
    case Answered(body) =>
      (match TokensOf(body)
       case Some(tokens) => LoggedIn(tokens.0, tokens.1)
       case None => ShowError(ErrorMessage(None, Some(JStr(nullReadMessage)), LoginFailed)))
    case Rejected(responseMessage, errorMessage) =>
      ShowError(ErrorMessage(responseMessage, errorMessage, LoginFailed))
  }

  /**
   * A `null` body never reaches `login`: the form shows the thrown error's own message,
   * or the fallback when that message is empty, and the shown error is never blank.
   */
  lemma NullBodyNeverLogsIn(nullReadMessage: string)
    ensures Settle(Answered(JNull), nullReadMessage).ShowError?
    ensures Truthy(Settle(Answered(JNull), nullReadMessage).message)
    ensures nullReadMessage != "" ==> Settle(Answered(JNull), nullReadMessage).message == JStr(nullReadMessage)
    ensures nullReadMessage == "" ==> Settle(Answered(JNull), nullReadMessage).message == JStr(LoginFailed)
  {
  }

  /**
   * A body without `accessToken` still reaches `login`: the session is not signed in,
   * yet the text "undefined" is stored, and a reload takes that non-empty text over as
   * a token that counts as signed in.
   */
  lemma MissingTokenStoredAsUndefined(body: Json, nullReadMessage: string)
    requires !body.JNull? && Get(body, "accessToken").None?
    ensures Settle(Answered(body), nullReadMessage).LoggedIn?
    ensures !TruthyOpt(Settle(Answered(body), nullReadMessage).accessToken)
    ensures StorageText(Settle(Answered(body), nullReadMessage).accessToken) == "undefined"
    ensures Truthy(JStr(StorageText(Settle(Answered(body), nullReadMessage).accessToken)))
  {
  }
}
