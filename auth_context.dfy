/**
 * The authentication context: the roles read from an access token, the role and
 * company-type predicates derived from them, and the storage effects of login,
 * logout and token update.
 */
module AuthContext {
  import opened Wrappers
  import opened JsText
  import opened Json
  import opened Storage
  import opened Listeners

  /** The claims read, in this order. */
  const RoleClaims := ["roles", "authorities", "scope", "scopes"]

  predicate IsSeparator(c: char) {
    c == ' ' || c == ','
  }

  predicate NoSeparator(s: string) {
    forall i :: 0 <= i < |s| ==> !IsSeparator(s[i])
  }

  /**
   * `s.split(/[ ,]+/)`: the pieces between maximal runs of spaces and commas,
   * including the empty pieces before a leading run and after a trailing one.
   * `cur` is the piece being read; `inRun` says the previous character was a separator.
   */
  function SplitFrom(s: string, cur: string, inRun: bool): (r: seq<string>)
    requires NoSeparator(cur)
    ensures r != []
    ensures forall i :: 0 <= i < |r| ==> NoSeparator(r[i])
    decreases |s|
  {
    if s == [] then [cur]
    else if IsSeparator(s[0]) then
      if inRun then SplitFrom(s[1..], cur, true) else [cur] + SplitFrom(s[1..], [], true)
    else SplitFrom(s[1..], cur + [s[0]], false)
  }

  function SplitRoles(s: string): (r: seq<string>)
    ensures r != []
    ensures forall i :: 0 <= i < |r| ==> NoSeparator(r[i])
  {
    SplitFrom(s, [], false)
  }

  /** `forEach((s) => s && roles.push(s))`: the non-empty pieces, in order. */
  function NonEmptyPieces(ps: seq<string>): (r: seq<string>)
    ensures forall i :: 0 <= i < |r| ==> r[i] != "" && r[i] in ps
    ensures forall p :: p in ps && p != "" ==> p in r
  {
    if ps == [] then []
    else
      var rest := NonEmptyPieces(ps[..|ps| - 1]);
      assert forall p :: p in ps[..|ps| - 1] ==> p in ps;
      assert forall p :: p in ps ==> p in ps[..|ps| - 1] || p == ps[|ps| - 1];
      if ps[|ps| - 1] == "" then rest else rest + [ps[|ps| - 1]]
  }

  /** What `push(v)` appends: falsy values nothing, arrays and objects their members in order, strings their pieces. */
  function Collect(v: Json): seq<string>
    decreases v, 1
  {
    if !Truthy(v) then []
    else
      match v
      case JArr(xs) => CollectAll(xs)
      case JStr(s) => NonEmptyPieces(SplitRoles(s))
      case JObj(fs) => CollectFields(fs)
      case _ => []
  }

  function CollectAll(xs: seq<Json>): seq<string>
    decreases xs, 0
  {
    if xs == [] then [] else CollectAll(xs[..|xs| - 1]) + Collect(xs[|xs| - 1])
  }

  function CollectFields(fs: seq<Field>): seq<string>
    decreases fs, 0
  {
    if fs == [] then [] else CollectFields(fs[..|fs| - 1]) + Collect(fs[|fs| - 1].value)
  }

  function CollectClaim(claim: Option<Json>): seq<string> {
    if claim.Some? then Collect(claim.value) else []
  }

  /** The four claims' strings, in claim order. */
  function Gathered(decoded: Json): seq<string> {
    CollectClaim(Get(decoded, "roles")) + CollectClaim(Get(decoded, "authorities"))
    + CollectClaim(Get(decoded, "scope")) + CollectClaim(Get(decoded, "scopes"))
  }

  function UpperAll(rs: seq<string>): (r: seq<string>)
    ensures |r| == |rs|
    ensures forall i :: 0 <= i < |rs| ==> r[i] == Upper(rs[i])
  {
    seq(|rs|, i requires 0 <= i < |rs| => Upper(rs[i]))
  }

  /** `Array.from(new Set(s))`: each string once, at its first occurrence. */
  function Dedupe(s: seq<string>): (r: seq<string>)
    ensures NoDuplicates(r)
    ensures forall x :: x in r <==> x in s
  {
    if s == [] then []
    else
      var d := Dedupe(s[..|s| - 1]);
      assert forall x :: x in s <==> x in s[..|s| - 1] || x == s[|s| - 1];
      if s[|s| - 1] in d then d else d + [s[|s| - 1]]
  }

  /** Where `x` first occurs in `s`. */
  function FirstAt(s: seq<string>, x: string): (r: nat)
    requires x in s
    ensures r < |s| && s[r] == x
    ensures forall k :: 0 <= k < r ==> s[k] != x
    decreases |s|
  {
    if x in s[..|s| - 1] then FirstAt(s[..|s| - 1], x) else |s| - 1
  }

  /** The set keeps insertion order: the kept strings appear in the order of their first occurrences. */
  lemma {:induction false} DedupeKeepsFirstOccurrenceOrder(s: seq<string>)
    ensures forall i, j :: 0 <= i < j < |Dedupe(s)| ==> FirstAt(s, Dedupe(s)[i]) < FirstAt(s, Dedupe(s)[j])
    decreases |s|
  {
    if s != [] {
      var p := s[..|s| - 1];
      var d := Dedupe(p);
      DedupeKeepsFirstOccurrenceOrder(p);
      forall x | x in p
        ensures FirstAt(s, x) == FirstAt(p, x) < |p|
      {
      }
    }
  }

  /**
   * `extractRolesFromJwt(token)`. `decodeToken` stands for `jwtDecode`; `None` is a
   * token it rejects.
   */
  function RolesOf(token: Option<string>, decodeToken: string -> Option<Json>): seq<string> {
    if token.None? || token.value == "" then []
    else
      match decodeToken(token.value)
      case None => []
      case Some(decoded) => if decoded.JNull? then [] else Dedupe(UpperAll(Gathered(decoded)))
  }

  // ---------------------------------------------------------------- the imperative extraction

  /** The recursive `push` closure, appending to the caller's `roles`. */
  method Push(v: Json, roles: seq<string>) returns (out: seq<string>)
    ensures out == roles + Collect(v)
    decreases v, 1
  {
    out := roles;
    if !Truthy(v) {
      return;
    }
    match v
    case JArr(xs) =>
      for i := 0 to |xs|
        invariant out == roles + CollectAll(xs[..i])
      {
        assert xs[..i + 1][..i] == xs[..i];
        out := Push(xs[i], out);
      }
      assert xs[..|xs|] == xs;
    case JStr(s) =>
      var pieces := SplitRoles(s);
      for i := 0 to |pieces|
        invariant out == roles + NonEmptyPieces(pieces[..i])
      {
        assert pieces[..i + 1][..i] == pieces[..i];
        if pieces[i] != "" {
          out := out + [pieces[i]];
        }
      }
      assert pieces[..|pieces|] == pieces;
    case JObj(fs) =>
      for i := 0 to |fs|
        invariant out == roles + CollectFields(fs[..i])
      {
        assert fs[..i + 1][..i] == fs[..i];
        out := Push(fs[i].value, out);
      }
      assert fs[..|fs|] == fs;
    case _ =>
  }

  /** `extractRolesFromJwt`: push the four claims, uppercase, then keep first occurrences. */
  method ExtractRolesFromJwt(token: Option<string>, decodeToken: string -> Option<Json>) returns (result: seq<string>)
    ensures result == RolesOf(token, decodeToken)
  {
    if token.None? || token.value == "" {
      return [];
    }
    var decoded := decodeToken(token.value);
    if decoded.None? || decoded.value.JNull? {
      return [];
    }
    var d := decoded.value;
    var roles := [];
    for c := 0 to |RoleClaims|
      invariant roles == if c == 0 then [] else if c == 1 then CollectClaim(Get(d, "roles"))
                         else if c == 2 then CollectClaim(Get(d, "roles")) + CollectClaim(Get(d, "authorities"))
                         else if c == 3 then CollectClaim(Get(d, "roles")) + CollectClaim(Get(d, "authorities"))
                                             + CollectClaim(Get(d, "scope"))
                         else Gathered(d)
    {
      var claim := Get(d, RoleClaims[c]);
      if claim.Some? {
        roles := Push(claim.value, roles);
      }
    }
    var upper := UpperAll(roles);
    var seen: set<string> := {};
    result := [];
    for i := 0 to |upper|
      invariant result == Dedupe(upper[..i])
      invariant seen == set x | x in result
    {
      assert upper[..i + 1][..i] == upper[..i];
      if upper[i] !in seen {
        result := result + [upper[i]];
        seen := seen + {upper[i]};
      }
    }
    assert upper[..|upper|] == upper;
  }

  // ---------------------------------------------------------------- what the roles look like

  predicate NoLowerCase(s: string) {
    forall i :: 0 <= i < |s| ==> !('a' <= s[i] <= 'z')
  }

  /** A well-formed role: non-empty, with no space or comma. */
  predicate RoleShaped(r: string) {
    r != "" && NoSeparator(r)
  }

  lemma {:induction false} CollectShaped(v: Json)
    ensures forall r :: r in Collect(v) ==> RoleShaped(r)
    decreases v, 1
  {
    if Truthy(v) {
      match v
      case JArr(xs) => CollectAllShaped(xs);
      case JStr(s) =>
        var ps := SplitRoles(s);
        forall r | r in NonEmptyPieces(ps) ensures RoleShaped(r) {
          var k :| 0 <= k < |ps| && ps[k] == r;
        }
      case JObj(fs) => CollectFieldsShaped(fs);
      case _ =>
    }
  }

  lemma {:induction false} CollectAllShaped(xs: seq<Json>)
    ensures forall r :: r in CollectAll(xs) ==> RoleShaped(r)
    decreases xs, 0
  {
    if xs != [] {
      CollectAllShaped(xs[..|xs| - 1]);
      CollectShaped(xs[|xs| - 1]);
    }
  }

  lemma {:induction false} CollectFieldsShaped(fs: seq<Field>)
    ensures forall r :: r in CollectFields(fs) ==> RoleShaped(r)
    decreases fs, 0
  {
    if fs != [] {
      CollectFieldsShaped(fs[..|fs| - 1]);
      CollectShaped(fs[|fs| - 1].value);
    }
  }

  /**
   * Every extracted role is non-empty, upper-case, free of spaces and commas, and
   * appears once; an absent, empty or undecodable token has no roles.
   */
  lemma RolesWellFormed(token: Option<string>, decodeToken: string -> Option<Json>)
    ensures var roles := RolesOf(token, decodeToken);
            && NoDuplicates(roles)
            && (forall r :: r in roles ==> RoleShaped(r) && NoLowerCase(r))
            && (token.None? || token.value == "" || decodeToken(token.value).None? ==> roles == [])
  {
    if token.Some? && token.value != "" && decodeToken(token.value).Some? && !decodeToken(token.value).value.JNull? {
      var d := decodeToken(token.value).value;
      var g := Gathered(d);
      CollectShaped_Claims(d);
      var u := UpperAll(g);
      forall r | r in Dedupe(u) ensures RoleShaped(r) && NoLowerCase(r) {
        var k :| 0 <= k < |u| && u[k] == r;
        assert g[k] in g;
        assert r == Upper(g[k]);
      }
    }
  }

  lemma CollectShaped_Claims(d: Json)
    ensures forall r :: r in Gathered(d) ==> RoleShaped(r)
  {
    ClaimShaped(Get(d, "roles"));
    ClaimShaped(Get(d, "authorities"));
    ClaimShaped(Get(d, "scope"));
    ClaimShaped(Get(d, "scopes"));
  }

  lemma ClaimShaped(claim: Option<Json>)
    ensures forall r :: r in CollectClaim(claim) ==> RoleShaped(r)
  {
    if claim.Some? { CollectShaped(claim.value); }
  }

  // ---------------------------------------------------------------- role predicates

  /** The role test behind `isAdmin`, `isDirector` and `isSeller`, for `name` in upper case. */
  predicate MatchesRole(r: string, name: string) {
    r == name || r == "ROLE_" + name || EndsWith(r, ":" + name) || EndsWith(r, " " + name)
  }

  predicate HasRole(roles: seq<string>, name: string) {
    exists r :: r in roles && MatchesRole(r, name)
  }

  predicate IsAdmin(roles: seq<string>) { HasRole(roles, "ADMIN") }
  predicate IsDirector(roles: seq<string>) { HasRole(roles, "DIRECTOR") }
  predicate IsSeller(roles: seq<string>) { HasRole(roles, "SELLER") }

  /**
   * For extracted roles the `endsWith(' NAME')` alternative never fires, because no
   * role contains a space: the predicate is exact match, `ROLE_` prefix or `:NAME` suffix.
   */
  lemma SpaceSuffixNeverMatches(token: Option<string>, decodeToken: string -> Option<Json>, name: string)
    ensures var roles := RolesOf(token, decodeToken);
            HasRole(roles, name) <==> exists r :: r in roles && (r == name || r == "ROLE_" + name || EndsWith(r, ":" + name))
  {
    var roles := RolesOf(token, decodeToken);
    RolesWellFormed(token, decodeToken);
    forall r | r in roles
      ensures !EndsWith(r, " " + name)
    {
      NoSpaceSuffix(r, name);
    }
  }

  lemma NoSpaceSuffix(r: string, name: string)
    requires NoSeparator(r)
    ensures !EndsWith(r, " " + name)
  {
    if |" " + name| <= |r| {
      var k := |r| - |" " + name|;
      assert !IsSeparator(r[k]);
      assert r[k..][0] == r[k];
    }
  }

  /** `companyType?.toUpperCase() === 'BUYER'`. */
  predicate IsBuyer(companyType: Option<string>) {
    companyType.Some? && Upper(companyType.value) == "BUYER"
  }

  /** `companyType?.toUpperCase() === 'SELLER'`. */
  predicate IsSellerCompany(companyType: Option<string>) {
    companyType.Some? && Upper(companyType.value) == "SELLER"
  }

  /** No company type is both a buyer and a seller, and the comparison ignores case. */
  lemma BuyerAndSellerExclusive(companyType: Option<string>)
    ensures !(IsBuyer(companyType) && IsSellerCompany(companyType))
    ensures IsBuyer(Some("buyer")) && IsSellerCompany(Some("Seller"))
  {
    assert Upper("buyer") == "BUYER";
    assert Upper("Seller") == "SELLER";
  }

  // ---------------------------------------------------------------- the e-mail

  /**
   * The context's `email`, recomputed whenever the access token changes: the decoded
   * token's `sub` claim when it is truthy, else `null` (`None`), which is also what no
   * token, a token that does not decode, or a `null` payload give.
   */
  function ContextEmail(accessToken: Option<string>, decodeToken: string -> Option<Json>): (r: Option<Json>)
    ensures r.Some? ==> Truthy(r.value)
    ensures r.Some? <==> accessToken.Some? && accessToken.value != "" && decodeToken(accessToken.value).Some?
                         && TruthyOpt(Get(decodeToken(accessToken.value).value, "sub"))
    ensures r.Some? ==> Some(r.value) == Get(decodeToken(accessToken.value).value, "sub")
  {
    if accessToken.None? || accessToken.value == "" then None
    else
      match decodeToken(accessToken.value)
      case None => None
      case Some(decoded) =>
        var sub := Get(decoded, "sub");
        if TruthyOpt(sub) then sub else None
  }

  // ---------------------------------------------------------------- the session

  /** `localStorage.setItem(key, v)` stores `String(v)`: `undefined` is stored as "undefined". */
  function StorageText(v: Option<Json>): string {
    if v.None? then "undefined" else ToText(v.value)
  }

  /**
   * The context's token state, over the storage it shares with the HTTP client. The
   * state holds whatever value it was given (`None` is `null` or `undefined`); storage
   * holds text.
   */
  class Session {
    const store: TokenStore
    var accessToken: Option<Json>
    var refreshToken: Option<Json>
    /** The route the last navigation went to. */
    var route: string

    /** The mount effect: tokens found in storage are taken over when non-empty. */
    constructor(store: TokenStore)
      ensures this.store == store && route == ""
      ensures accessToken == (if store.GetItem(AccessTokenKey).Some? && store.GetItem(AccessTokenKey).value != ""
                              then Some(JStr(store.GetItem(AccessTokenKey).value)) else None)
      ensures refreshToken == (if store.GetItem(RefreshTokenKey).Some? && store.GetItem(RefreshTokenKey).value != ""
                               then Some(JStr(store.GetItem(RefreshTokenKey).value)) else None)
    {
      this.store := store;
      var at := store.GetItem(AccessTokenKey);
      var rt := store.GetItem(RefreshTokenKey);
      accessToken := if at.Some? && at.value != "" then Some(JStr(at.value)) else None;
      refreshToken := if rt.Some? && rt.value != "" then Some(JStr(rt.value)) else None;
      route := "";
    }

    /** `isAuthenticated`: `!!accessToken`. */
    predicate IsAuthenticated()
      reads this
    {
      TruthyOpt(accessToken)
    }

    /**
     * `login(tokens)` with the tokens as read from the response body, which nothing
     * checks: storage gets `String(v)` of each, so a missing token is stored as the
     * text "undefined", while the state holds the values themselves.
     */
    method Login(access: Option<Json>, refresh: Option<Json>)
      modifies this, store
      ensures store.entries == old(store.entries)[AccessTokenKey := StorageText(access)]
                                                 [RefreshTokenKey := StorageText(refresh)]
      ensures accessToken == access && refreshToken == refresh && route == "/"
      ensures IsAuthenticated() <==> TruthyOpt(access)
    {
      store.SetItem(AccessTokenKey, StorageText(access));
      store.SetItem(RefreshTokenKey, StorageText(refresh));
      accessToken := access;
      refreshToken := refresh;
      route := "/";
    }

    method Logout()
      modifies this, store
      ensures store.entries == old(store.entries) - {AccessTokenKey, RefreshTokenKey}
      ensures accessToken.None? && refreshToken.None? && route == "/login"
      ensures !IsAuthenticated()
    {
      store.RemoveItem(AccessTokenKey);
      store.RemoveItem(RefreshTokenKey);
      accessToken := None;
      refreshToken := None;
      route := "/login";
    }

    /** `updateAccessToken`: storage gets the token's text, the state the token itself. */
    method UpdateAccessToken(access: Json)
      modifies this`accessToken, store
      ensures store.entries == old(store.entries)[AccessTokenKey := ToText(access)]
      ensures accessToken == Some(access)
    {
      store.SetItem(AccessTokenKey, ToText(access));
      accessToken := Some(access);
    }

    /**
     * The `tokenRefreshed` window-event handler: a truthy token replaces the access
     * token, stored as its text; a falsy one changes nothing.
     */
    method OnTokenRefreshed(newToken: Json)
      modifies this`accessToken, store
      ensures Truthy(newToken) ==> store.entries == old(store.entries)[AccessTokenKey := ToText(newToken)]
                                   && accessToken == Some(newToken)
      ensures !Truthy(newToken) ==> store.entries == old(store.entries) && accessToken == old(accessToken)
      ensures IsAuthenticated() <==> Truthy(newToken) || old(IsAuthenticated())
    {
      if Truthy(newToken) {
        UpdateAccessToken(newToken);
      }
    }

    /** The force-logout subscriber: it logs out. */
    method OnForceLogout()
      modifies this, store
      ensures store.entries == old(store.entries) - {AccessTokenKey, RefreshTokenKey}
      ensures !IsAuthenticated() && route == "/login"
    {
      Logout();
    }
  }
}
