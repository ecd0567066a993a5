/**
 * `getUserData`, as the own-company page and the profile page both define it: the
 * signed-in user's e-mail read from the access token's claims. `decodeToken` stands
 * for `jwtDecode`; `None` is a token it rejects (the `catch` branch). The numeric id
 * the same function derives with `parseInt` is not modelled.
 */
module TokenUser {
  import opened Wrappers
  import opened Json

  /** `a || b || ... || null`: the first truthy value, `None` when there is none. */
  function FirstTruthy(vs: seq<Option<Json>>): (r: Option<Json>)
    ensures r.Some? ==> Truthy(r.value)
    ensures r.Some? <==> exists i :: 0 <= i < |vs| && TruthyOpt(vs[i])
    ensures r.Some? ==> exists i :: 0 <= i < |vs| && vs[i] == r && forall j :: 0 <= j < i ==> !TruthyOpt(vs[j])
    decreases |vs|
  {
    if vs == [] then None
    else if TruthyOpt(vs[0]) then vs[0]
    else
      var rest := FirstTruthy(vs[1..]);
      assert forall i :: 1 <= i < |vs| ==> vs[i] == vs[1..][i - 1];
      if rest.Some? then
        var k :| 0 <= k < |vs[1..]| && vs[1..][k] == rest && forall j :: 0 <= j < k ==> !TruthyOpt(vs[1..][j]);
        assert vs[k + 1] == rest;
        rest
      else rest
  }

  /** The decoded payload, when there is a token and the decoder accepts it. */
  function Claims(accessToken: Option<string>, decodeToken: string -> Option<Json>): Option<Json> {
    if accessToken.None? || accessToken.value == "" then None else decodeToken(accessToken.value)
  }

  /**
   * `decoded.sub || decoded.email || decoded.username || null`. Reading a property of
   * a `null` payload throws, and the `catch` also yields `null`.
   */
  function EmailClaim(accessToken: Option<string>, decodeToken: string -> Option<Json>): (r: Option<Json>)
    ensures Claims(accessToken, decodeToken).None? ==> r.None?
    ensures r.Some? ==> Truthy(r.value)
    ensures r.Some? ==> var d := Claims(accessToken, decodeToken).value;
                        r == Get(d, "sub") || r == Get(d, "email") || r == Get(d, "username")
  {
    var claims := Claims(accessToken, decodeToken);
    if claims.None? then None
    else
      var d := claims.value;
      var r := FirstTruthy([Get(d, "sub"), Get(d, "email"), Get(d, "username")]);
      r
  }

  /** `sub` wins whenever it is truthy; `email` is used only when `sub` is not. */
  lemma SubComesFirst(accessToken: Option<string>, decodeToken: string -> Option<Json>)
    requires Claims(accessToken, decodeToken).Some?
    ensures var d := Claims(accessToken, decodeToken).value;
            (TruthyOpt(Get(d, "sub")) ==> EmailClaim(accessToken, decodeToken) == Get(d, "sub"))
            && (!TruthyOpt(Get(d, "sub")) && TruthyOpt(Get(d, "email")) ==> EmailClaim(accessToken, decodeToken) == Get(d, "email"))
            && (EmailClaim(accessToken, decodeToken).None? <==>
                  !TruthyOpt(Get(d, "sub")) && !TruthyOpt(Get(d, "email")) && !TruthyOpt(Get(d, "username")))
  {
    var d := Claims(accessToken, decodeToken).value;
    var vs := [Get(d, "sub"), Get(d, "email"), Get(d, "username")];
    var r := FirstTruthy(vs);
    if r.Some? {
      var i :| 0 <= i < |vs| && vs[i] == r && forall j :: 0 <= j < i ==> !TruthyOpt(vs[j]);
      assert TruthyOpt(vs[i]);
      if !TruthyOpt(vs[0]) && TruthyOpt(vs[1]) {
        assert i == 1;
      }
    } else {
      assert !TruthyOpt(vs[0]) && !TruthyOpt(vs[1]) && !TruthyOpt(vs[2]);
    }
  }
}
