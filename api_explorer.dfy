/**
 * The path rule of the API explorer page: what the user types is turned into a
 * path under `/api`, and the request is sent with the first `/api` removed,
 * since the HTTP client already points at the gateway's `/api` base.
 */
module ApiExplorer {
  import opened JsText

  const ApiPrefix := "/api"

  /** The `finalPath` of `doGet`: typed `/api…` paths pass through, anything else is put under `/api/`. */
  function NormalisedPath(path: string): (r: string)
    ensures StartsWith(r, ApiPrefix)
    ensures StartsWith(path, ApiPrefix) ==> r == path
    ensures !StartsWith(path, ApiPrefix) ==> StartsWith(r, "/api/") && EndsWith(r, path) && |r| <= |path| + 5
  {
    if StartsWith(path, ApiPrefix) then path
    else ApiPrefix + (if StartsWith(path, "/") then "" else "/") + path
  }

  /** The path handed to the client: `finalPath.replace('/api', '')`. */
  function RequestPath(path: string): string {
    ReplaceFirst(NormalisedPath(path), ApiPrefix, "")
  }

  /** The request path is the normalised path without its leading `/api`. */
  lemma RequestPathDropsPrefix(path: string)
    ensures NormalisedPath(path) == ApiPrefix + RequestPath(path)
  {
    var n := NormalisedPath(path);
    assert n == n[..4] + n[4..];
  }

  /** A path without the `/api` prefix is requested as itself, with a leading slash added if missing. */
  lemma {:induction false} UnprefixedPathRequested(path: string)
    requires !StartsWith(path, ApiPrefix)
    ensures StartsWith(path, "/") ==> RequestPath(path) == path
    ensures !StartsWith(path, "/") ==> RequestPath(path) == "/" + path
  {
    var n := NormalisedPath(path);
    if StartsWith(path, "/") {
      assert n == ApiPrefix + path;
      assert n[4..] == path;
    } else {
      assert n == ApiPrefix + ("/" + path);
      assert n[4..] == "/" + path;
    }
  }

  /** A path with the `/api` prefix is requested with exactly those four characters cut off. */
  lemma PrefixedPathRequested(path: string)
    requires StartsWith(path, ApiPrefix)
    ensures RequestPath(path) == path[4..]
  {
  }

  /**
   * A plain segment (not starting with '/' or "api") is requested as the same path
   * whether or not it is typed with a leading slash.
   */
  lemma SegmentBothWays(segment: string)
    requires segment != [] && segment[0] != '/' && !StartsWith(segment, "api")
    ensures RequestPath("/" + segment) == "/" + segment
    ensures RequestPath(segment) == "/" + segment
  {
    var slashed := "/" + segment;
    assert StartsWith(slashed, "/");
    UnprefixedPathRequested(slashed);
    assert !StartsWith(segment, "/");
    UnprefixedPathRequested(segment);
  }

  /** The prefix test is textual: `/apifoo` loses its `/api` and is requested as `foo`, without a slash. */
  lemma ApiFooLosesSlash()
    ensures RequestPath("/apifoo") == "foo"
  {
    assert "/apifoo"[..4] == ApiPrefix;
    PrefixedPathRequested("/apifoo");
    assert "/apifoo"[4..] == "foo";
  }
}
