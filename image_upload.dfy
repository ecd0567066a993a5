/**
 * Image helpers: file validation, the generated file name for a company logo, and
 * the rewriting of image URLs for display.
 */
module ImageUpload {
  import opened JsText

  const AllowedTypes := ["image/jpeg", "image/jpg", "image/png", "image/gif", "image/webp"]
  /** 5 MB. */
  const MaxSize := 5 * 1024 * 1024
  const TypeError := "Поддерживаются только изображения (JPEG, PNG, GIF, WebP)"
  const SizeError := "Размер файла не должен превышать 5MB"

  /** What the helpers read of a browser `File`. */
  datatype ImageFile = ImageFile(name: string, fileType: string, size: int)

  datatype Validation = Valid | Invalid(error: string)

  /** `validateImageFile(file)`: the type is checked before the size. */
  function ValidateImageFile(file: ImageFile): (r: Validation)
    ensures r.Valid? <==> file.fileType in AllowedTypes && file.size <= MaxSize
    ensures file.fileType !in AllowedTypes ==> r == Invalid(TypeError)
    ensures file.fileType in AllowedTypes && file.size > MaxSize ==> r == Invalid(SizeError)
  {
    if file.fileType !in AllowedTypes then Invalid(TypeError)
    else if file.size > MaxSize then Invalid(SizeError)
    else Valid
  }

  // ---------------------------------------------------------------- logo file names

  /** `s.split('.').pop()`: the text after the last '.', or all of `s` when it has none. */
  function AfterLastDot(s: string): (r: string)
    ensures '.' !in r
    ensures |r| <= |s| && r == s[|s| - |r|..]
    ensures '.' !in s ==> r == s
    ensures |r| < |s| ==> s[|s| - |r| - 1] == '.'
    decreases |s|
  {
    if s == [] then []
    else if s[|s| - 1] == '.' then []
    else
      var r := AfterLastDot(s[..|s| - 1]) + [s[|s| - 1]];
      assert forall c :: c in s[..|s| - 1] ==> c in s;
      r
  }

  /** The extension of the logo name: lowercased, and `jpg` when it is empty. */
  function LogoExtension(originalFileName: string): (r: string)
    ensures r != "" && '.' !in r
    ensures '.' !in originalFileName && originalFileName != "" ==> r == Lower(originalFileName)
    ensures AfterLastDot(originalFileName) == "" ==> r == "jpg"
    ensures AfterLastDot(originalFileName) != "" ==> r == Lower(AfterLastDot(originalFileName))
  {
    var e := Lower(AfterLastDot(originalFileName));
    assert forall i :: 0 <= i < |e| ==> e[i] != '.';
    if e == "" then "jpg" else e
  }

  /** Only the last '.' counts: "logo.v2.PNG" gets the extension "png", and a trailing '.' gives "jpg". */
  lemma LastDotWins()
    ensures LogoExtension("logo.v2.PNG") == "png"
    ensures LogoExtension("logo.") == "jpg"
  {
    var r := AfterLastDot("logo.v2.PNG");
    assert "logo.v2.PNG"[7] == '.';
    assert r == "PNG";
    assert Lower("PNG") == "png";
  }

  predicate IsSlugChar(c: char) {
    ('a' <= c <= 'z') || ('0' <= c <= '9') || c == '_'
  }

  /** `.replace(/[^a-z0-9]/g, '_')`. */
  function ReplaceOthers(s: string): (r: string)
    ensures |r| == |s|
    ensures forall i :: 0 <= i < |s| ==> r[i] == if IsSlugChar(s[i]) && s[i] != '_' then s[i] else '_'
  {
    seq(|s|, i requires 0 <= i < |s| => if IsSlugChar(s[i]) && s[i] != '_' then s[i] else '_')
  }

  predicate AllSlug(s: string) {
    forall i :: 0 <= i < |s| ==> IsSlugChar(s[i])
  }

  predicate NoDoubleUnderscore(s: string) {
    forall i :: 0 <= i < |s| - 1 ==> !(s[i] == '_' && s[i + 1] == '_')
  }

  /** `.replace(/_{2,}/g, '_')`: every run of underscores becomes one. */
  function Squeeze(s: string): (r: string)
    ensures AllSlug(s) ==> AllSlug(r)
    ensures NoDoubleUnderscore(r)
    ensures s == [] <==> r == []
    ensures s != [] ==> r[0] == s[0]
    decreases |s|
  {
    if s == [] then []
    else if |s| > 1 && s[0] == '_' && s[1] == '_' then Squeeze(s[1..])
    else
      var rest := Squeeze(s[1..]);
      assert AllSlug(s) ==> AllSlug(s[1..]) by {
        if AllSlug(s) { forall i | 0 <= i < |s[1..]| ensures IsSlugChar(s[1..][i]) { assert s[1..][i] == s[i + 1]; } }
      }
      [s[0]] + rest
  }

  /** `.replace(/^_|_$/g, '')`: one leading and one trailing underscore go. */
  function TrimUnderscores(s: string): string {
    var a := if s != [] && s[0] == '_' then s[1..] else s;
    if a != [] && a[|a| - 1] == '_' then a[..|a| - 1] else a
  }

  /** The sanitised company name inside the logo file name. */
  function SanitizeCompanyName(name: string): string {
    TrimUnderscores(Squeeze(ReplaceOthers(Lower(name))))
  }

  /**
   * The sanitised name holds only a–z, 0–9 and '_', never two '_' in a row, and
   * neither starts nor ends with '_'.
   */
  lemma SanitizedIsSlug(name: string)
    ensures var s := SanitizeCompanyName(name);
            && AllSlug(s) && NoDoubleUnderscore(s)
            && (s != [] ==> s[0] != '_' && s[|s| - 1] != '_')
  {
    var q := Squeeze(ReplaceOthers(Lower(name)));
    var a := if q != [] && q[0] == '_' then q[1..] else q;
    assert AllSlug(a) && NoDoubleUnderscore(a) by {
      forall i | 0 <= i < |a| ensures IsSlugChar(a[i]) {
        if q != [] && q[0] == '_' { assert a[i] == q[i + 1]; }
      }
      forall i | 0 <= i < |a| - 1 ensures !(a[i] == '_' && a[i + 1] == '_') {
        if q != [] && q[0] == '_' { assert a[i] == q[i + 1] && a[i + 1] == q[i + 2]; }
      }
    }
    if q != [] && q[0] == '_' && a != [] {
      assert a[0] == q[1];
    }
    var s := if a != [] && a[|a| - 1] == '_' then a[..|a| - 1] else a;
    assert s == SanitizeCompanyName(name);
    if a != [] && a[|a| - 1] == '_' && s != [] {
      assert s[|s| - 1] == a[|a| - 2];
      assert s[0] == a[0];
    }
  }

  /** `generateLogoFileName(companyName, originalFileName)` with `Date.now()` given as `timestamp`. */
  function GenerateLogoFileName(companyName: string, originalFileName: string, timestamp: int): (r: string)
    ensures StartsWith(r, "company_logo_" + SanitizeCompanyName(companyName) + "_" + IntText(timestamp) + ".")
    ensures EndsWith(r, "." + LogoExtension(originalFileName))
    ensures |r| == |"company_logo_" + SanitizeCompanyName(companyName) + "_" + IntText(timestamp)| + 1
                   + |LogoExtension(originalFileName)|
  {
    var stem := "company_logo_" + SanitizeCompanyName(companyName) + "_" + IntText(timestamp);
    var ext := LogoExtension(originalFileName);
    JoinedEnds(stem, ".", ext);
    stem + "." + ext
  }

  lemma JoinedEnds(a: string, sep: string, b: string)
    ensures StartsWith(a + sep + b, a + sep) && EndsWith(a + sep + b, sep + b)
  {
    var r := a + sep + b;
    assert r[..|a + sep|] == a + sep;
    assert r[|r| - |sep + b|..] == sep + b;
  }

  // ---------------------------------------------------------------- image URLs

  const DrivePrefix := "https://drive.google.com/file/d/"
  /** "https://drive.google.com/uc?export=view&id=", assembled around its ':' and its two dots. */
  const DirectPrefix := "https" + [':'] + DirectAfterColon
  const DirectAfterColon := "//drive" + ['.'] + ("google" + ['.'] + DirectAfterHost)
  const DirectAfterHost := "com/uc?export=view&id="

  /** `[a-zA-Z0-9_-]`. */
  predicate IsIdChar(c: char) {
    ('a' <= c <= 'z') || ('A' <= c <= 'Z') || ('0' <= c <= '9') || c == '_' || c == '-'
  }

  /** The longest run of id characters at the start of `s` (the greedy `+`). */
  function IdRun(s: string): (r: string)
    ensures |r| <= |s| && r == s[..|r|]
    ensures forall i :: 0 <= i < |r| ==> IsIdChar(r[i])
    ensures |r| < |s| ==> !IsIdChar(s[|r|])
    decreases |s|
  {
    if s != [] && IsIdChar(s[0]) then [s[0]] + IdRun(s[1..]) else []
  }

  /** The id captured by the leftmost match of the Drive pattern at or after position `i`. */
  function DriveIdFrom(url: string, i: nat): (r: string)
    ensures forall k :: 0 <= k < |r| ==> IsIdChar(r[k])
    decreases |url| - i
  {
    if i + |DrivePrefix| > |url| then ""
    else if OccursAt(url, DrivePrefix, i) && IdRun(url[i + |DrivePrefix|..]) != "" then IdRun(url[i + |DrivePrefix|..])
    else DriveIdFrom(url, i + 1)
  }

  /** `url.match(driveRegex)?.[1]`, with "" for no match. */
  function DriveId(url: string): (r: string)
    ensures forall k :: 0 <= k < |r| ==> IsIdChar(r[k])
  {
    DriveIdFrom(url, 0)
  }

  /** `optimizeImageUrl(url)`. */
  function OptimizeImageUrl(url: string): (r: string)
    ensures url == "" ==> r == ""
    ensures Contains(url, "cloudinary.com") ==> r == url
  {
    if url == "" then ""
    else if Contains(url, "cloudinary.com") then url
    else if DriveId(url) != "" then DirectPrefix + DriveId(url)
    else url
  }

  /** A link that matches the Drive pattern becomes the direct link with the same id. */
  lemma DriveLinkRewritten(url: string)
    requires url != "" && !Contains(url, "cloudinary.com") && DriveId(url) != ""
    ensures OptimizeImageUrl(url) == DirectPrefix + DriveId(url)
    ensures exists i :: OccursAt(url, DrivePrefix + DriveId(url), i)
  {
    DriveIdOccurs(url, 0);
  }

  /** The Drive pattern matches at `i`: the prefix, then at least one id character. */
  predicate DriveMatchAt(url: string, i: int) {
    OccursAt(url, DrivePrefix, i) && i + |DrivePrefix| < |url| && IsIdChar(url[i + |DrivePrefix|])
  }

  /** The step `DriveIdFrom` takes at `i` is a match exactly when `DriveMatchAt` holds there. */
  lemma DriveMatchStep(url: string, i: nat)
    requires i + |DrivePrefix| <= |url|
    ensures DriveMatchAt(url, i) <==> OccursAt(url, DrivePrefix, i) && IdRun(url[i + |DrivePrefix|..]) != ""
  {
    var rest := url[i + |DrivePrefix|..];
    assert rest != [] ==> rest[0] == url[i + |DrivePrefix|];
  }

  /**
   * The id found from position `i` on is non-empty exactly when the pattern matches at
   * or after `i`, and then it is the id run after the leftmost such match.
   */
  lemma {:induction false} DriveIdFromIsLeftmost(url: string, i: nat)
    ensures DriveIdFrom(url, i) != "" <==> exists k :: k >= i && DriveMatchAt(url, k)
    ensures DriveIdFrom(url, i) != "" ==>
              exists k :: k >= i && DriveMatchAt(url, k) && (forall m :: i <= m < k ==> !DriveMatchAt(url, m))
                          && DriveIdFrom(url, i) == IdRun(url[k + |DrivePrefix|..])
    decreases |url| - i
  {
    if i + |DrivePrefix| > |url| {
      assert forall k :: k >= i ==> !DriveMatchAt(url, k);
    } else {
      DriveMatchStep(url, i);
      if !DriveMatchAt(url, i) {
        DriveIdFromIsLeftmost(url, i + 1);
        assert forall k :: k >= i && DriveMatchAt(url, k) ==> k >= i + 1;
      }
    }
  }

  /**
   * `url.match(driveRegex)` finds an id exactly when the pattern matches somewhere, and
   * the id is the one after the leftmost match.
   */
  lemma DriveIdIsLeftmostMatch(url: string)
    ensures DriveId(url) != "" <==> exists k :: DriveMatchAt(url, k)
    ensures DriveId(url) != "" ==>
              exists k :: DriveMatchAt(url, k) && (forall m :: 0 <= m < k ==> !DriveMatchAt(url, m))
                          && DriveId(url) == IdRun(url[k + |DrivePrefix|..])
  {
    DriveIdFromIsLeftmost(url, 0);
    if exists k :: DriveMatchAt(url, k) {
      var k :| DriveMatchAt(url, k);
      assert k >= 0;
    }
  }

  /** A URL the Drive pattern matches nowhere is returned unchanged. */
  lemma NoDriveMatchUnchanged(url: string)
    requires forall k :: !DriveMatchAt(url, k)
    ensures OptimizeImageUrl(url) == url
  {
    DriveIdIsLeftmostMatch(url);
  }

  lemma {:induction false} DriveIdOccurs(url: string, i: nat)
    requires DriveIdFrom(url, i) != ""
    ensures exists k :: k >= i && OccursAt(url, DrivePrefix + DriveIdFrom(url, i), k)
    decreases |url| - i
  {
    if OccursAt(url, DrivePrefix, i) && IdRun(url[i + |DrivePrefix|..]) != "" {
      var id := IdRun(url[i + |DrivePrefix|..]);
      assert url[i + |DrivePrefix|..][..|id|] == url[i + |DrivePrefix|..i + |DrivePrefix| + |id|];
      assert url[i..i + |DrivePrefix| + |id|] == url[i..i + |DrivePrefix|] + url[i + |DrivePrefix|..i + |DrivePrefix| + |id|];
      assert OccursAt(url, DrivePrefix + id, i);
    } else {
      DriveIdOccurs(url, i + 1);
    }
  }

  /** In `a + [x] + b`, a character that is in neither `a` nor `b` can only sit at `|a|`. */
  lemma OnlyBetween(a: string, x: char, b: string, c: char)
    requires c !in a && c !in b
    ensures forall j :: 0 <= j < |a + [x] + b| && (a + [x] + b)[j] == c ==> j == |a|
  {
  }

  lemma IdHasNo(id: string, c: char)
    requires forall k :: 0 <= k < |id| ==> IsIdChar(id[k])
    requires !IsIdChar(c)
    ensures c !in id
  {
  }

  lemma DirectSplitAtColon(id: string)
    ensures DirectPrefix + id == "https" + [':'] + (DirectAfterColon + id)
  {
  }

  lemma NoColonAround()
    ensures ':' !in "https" && ':' !in DirectAfterColon
  {
  }

  lemma DirectCharAt25(id: string)
    ensures |DirectPrefix + id| >= 26 && (DirectPrefix + id)[25] == 'u'
  {
  }

  /** A direct link's only ':' is the one in "https:". */
  lemma DirectLinkColons(id: string)
    requires forall k :: 0 <= k < |id| ==> IsIdChar(id[k])
    ensures var out := DirectPrefix + id;
            |out| >= 26 && out[25] == 'u'
            && forall j :: 0 <= j < |out| && out[j] == ':' ==> j == 5
  {
    DirectSplitAtColon(id);
    NoColonAround();
    DirectCharAt25(id);
    IdHasNo(id, ':');
    OnlyBetween("https", ':', DirectAfterColon + id, ':');
  }

  /** The Drive pattern occurs nowhere in a direct link. */
  lemma NoDrivePrefixInDirect(id: string, i: nat)
    requires forall k :: 0 <= k < |id| ==> IsIdChar(id[k])
    ensures !OccursAt(DirectPrefix + id, DrivePrefix, i)
  {
    var out := DirectPrefix + id;
    DirectLinkColons(id);
    assert |DrivePrefix| == 32 && DrivePrefix[5] == ':' && DrivePrefix[25] == 'f';
    if i + |DrivePrefix| <= |out| {
      assert out[i + 5] == out[i..i + |DrivePrefix|][5];
      assert out[25] == out[0..|DrivePrefix|][25];
    }
  }

  lemma {:induction false} NoDriveMatchInDirect(id: string, i: nat)
    requires forall k :: 0 <= k < |id| ==> IsIdChar(id[k])
    ensures DriveIdFrom(DirectPrefix + id, i) == ""
    decreases |DirectPrefix + id| - i
  {
    if i + |DrivePrefix| <= |DirectPrefix + id| {
      NoDrivePrefixInDirect(id, i);
      NoDriveMatchInDirect(id, i + 1);
    }
  }

  lemma DirectSplitAtDots(id: string)
    ensures DirectPrefix + id == "https://drive" + ['.'] + ("google" + ['.'] + (DirectAfterHost + id))
  {
    assert "https" + [':'] + "//drive" == "https://drive";
  }

  lemma NoDotAround()
    ensures '.' !in "https://drive" && '.' !in "google" && '.' !in DirectAfterHost
  {
  }

  lemma DirectCharsAt3And10(id: string)
    ensures |DirectPrefix + id| >= 21 && (DirectPrefix + id)[3] == 'p' && (DirectPrefix + id)[10] == 'i'
  {
  }

  /** A character that is in neither `a` nor `b` can only sit at `|a|` or at the position of `y`. */
  lemma OnlyAtTwo(a: string, x: char, b: string, y: char, c: string, ch: char)
    requires ch !in a && ch !in b && ch !in c
    ensures forall j :: 0 <= j < |a + [x] + (b + [y] + c)| && (a + [x] + (b + [y] + c))[j] == ch ==>
              j == |a| || j == |a| + 1 + |b|
  {
    var inner := b + [y] + c;
    OnlyBetween(b, y, c, ch);
    forall j | 0 <= j < |a + [x] + inner| && (a + [x] + inner)[j] == ch
      ensures j == |a| || j == |a| + 1 + |b|
    {
      if j > |a| {
        assert (a + [x] + inner)[j] == inner[j - |a| - 1];
      }
    }
  }

  /** A direct link's only dots are the two in "drive.google.com". */
  lemma DirectLinkDots(id: string)
    requires forall k :: 0 <= k < |id| ==> IsIdChar(id[k])
    ensures var out := DirectPrefix + id;
            |out| >= 21 && out[3] == 'p' && out[10] == 'i'
            && forall j :: 0 <= j < |out| && out[j] == '.' ==> j == 13 || j == 20
  {
    DirectSplitAtDots(id);
    NoDotAround();
    DirectCharsAt3And10(id);
    IdHasNo(id, '.');
    OnlyAtTwo("https://drive", '.', "google", '.', DirectAfterHost + id, '.');
  }

  lemma CloudinaryShape()
    ensures |"cloudinary.com"| == 14 && "cloudinary.com"[0] == 'c' && "cloudinary.com"[10] == '.'
  {
  }

  lemma NotCloudinaryAt(id: string, i: int)
    requires forall k :: 0 <= k < |id| ==> IsIdChar(id[k])
    ensures !OccursAt(DirectPrefix + id, "cloudinary.com", i)
  {
    var out := DirectPrefix + id;
    var pat := "cloudinary.com";
    CloudinaryShape();
    DirectLinkDots(id);
    if 0 <= i && i + |pat| <= |out| {
      assert out[i + 10] == out[i..i + |pat|][10];
      assert out[i] == out[i..i + |pat|][0];
    }
  }

  /** A direct link never contains "cloudinary.com": its only dots sit where that would need a 'c'. */
  lemma NoCloudinaryInDirect(id: string)
    requires forall k :: 0 <= k < |id| ==> IsIdChar(id[k])
    ensures !Contains(DirectPrefix + id, "cloudinary.com")
  {
    ContainsIffOccurs(DirectPrefix + id, "cloudinary.com");
    forall i ensures !OccursAt(DirectPrefix + id, "cloudinary.com", i) {
      NotCloudinaryAt(id, i);
    }
  }

  /** Rewriting a rewritten URL changes nothing. */
  lemma OptimizeIdempotent(url: string)
    ensures OptimizeImageUrl(OptimizeImageUrl(url)) == OptimizeImageUrl(url)
  {
    if url != "" && !Contains(url, "cloudinary.com") && DriveId(url) != "" {
      var id := DriveId(url);
      NoCloudinaryInDirect(id);
      NoDriveMatchInDirect(id, 0);
    }
  }
}
