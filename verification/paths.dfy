/** The router's two string normalisations (Router.php).

    - `add` and `setUrl` append a trailing slash to a truthy string that does
      not already end in one (lines 129-131 and 158-160).
    - `execute` replaces a falsy or blank URL by `/` and prepends a slash to a
      URL that does not start with one (lines 315-322).

    Both apply the same trailing-slash policy to registered routes and to the
    request URL, but only `execute` puts a `/` in front. So a route added as
    `r` is found again by `setUrl(r)` exactly when `r` is truthy and starts
    with `/`: a route without the leading slash, or the empty route, is
    never the URL `execute` dispatches on. */
module Paths {
  import opened PhpString

  predicate EndsWithSlash(s: string) {
    |s| > 0 && s[|s| - 1] == '/'
  }

  predicate StartsWithSlash(s: string) {
    |s| > 0 && s[0] == '/'
  }

  /** The trailing-slash rule of `add` and `setUrl`: a truthy string that
      does not end in `/` gets exactly one `/` appended; anything else is
      kept verbatim. */
  function AppendTrailingSlash(s: string): (r: string)
    ensures s <= r && |r| <= |s| + 1
    ensures !IsFalsy(s) ==> EndsWithSlash(r)
    ensures r == s <==> IsFalsy(s) || EndsWithSlash(s)
  {
    if !IsFalsy(s) && s[|s| - 1] != '/' then s + "/" else s
  }

  lemma AppendTrailingSlashIdempotent(s: string)
    ensures AppendTrailingSlash(AppendTrailingSlash(s)) == AppendTrailingSlash(s)
  {
    var r := AppendTrailingSlash(s);
    if !IsFalsy(s) {
      assert EndsWithSlash(r);
    }
  }

  /** The URL `execute` dispatches on. It always starts with `/`; a falsy or
      blank URL becomes `/`; otherwise it is the URL itself, with one `/` put
      in front when it does not already start with one. */
  function RequestPath(url: string): (p: string)
    ensures StartsWithSlash(p)
    ensures IsFalsy(url) || IsBlank(url) ==> p == "/"
    ensures !IsFalsy(url) && !IsBlank(url) ==>
              |url| <= |p| <= |url| + 1 && p[|p| - |url|..] == url && (p == url <==> StartsWithSlash(url))
  {
    var u := if IsFalsy(url) || IsBlank(url) then "/" else url;
    if u[0] != '/' then "/" + u else u
  }

  /** Normalising the request URL a second time changes nothing, so calling
      `execute` twice dispatches on the same URL. */
  lemma RequestPathIdempotent(url: string)
    ensures RequestPath(RequestPath(url)) == RequestPath(url)
  {
    var p := RequestPath(url);
    assert !IsFalsy(p) by {
      assert p[0] == '/';
    }
    assert !IsBlank(p) by {
      assert !IsTrimmed(p[0]);
    }
  }

  /** Registration and dispatch normalise alike: a truthy URL starting with
      `/`, once passed through `setUrl`, is dispatched on exactly as the key
      `add` would store for the same string. */
  lemma SetUrlAgreesWithAdd(u: string)
    requires !IsFalsy(u) && StartsWithSlash(u)
    ensures RequestPath(AppendTrailingSlash(u)) == AppendTrailingSlash(u)
  {
    var s := AppendTrailingSlash(u);
    assert s[0] == u[0];
    assert !IsFalsy(s) by {
      assert s[0] == '/';
    }
    assert !IsBlank(s) by {
      assert !IsTrimmed(s[0]);
    }
  }

  /** The other side of `SetUrlAgreesWithAdd`: for a truthy string that does
      not start with `/`, `setUrl` and `execute` dispatch on the key `add`
      stores with a `/` put in front, so that key is never looked up
      exactly; only the pattern scan can still reach it. */
  lemma SetUrlMissesRelativeRoute(u: string)
    requires !IsFalsy(u) && !StartsWithSlash(u)
    ensures RequestPath(AppendTrailingSlash(u)) == "/" + AppendTrailingSlash(u)
  {
    var s := AppendTrailingSlash(u);
    assert s[0] == u[0];
    assert s[|s| - 1] == '/';
    assert !IsBlank(s) by {
      assert !IsTrimmed(s[|s| - 1]);
    }
  }

  /** `execute` never dispatches on the empty string, so the key `''` that
      `add('')` stores is never looked up exactly. */
  lemma RequestPathNotEmpty(url: string)
    ensures RequestPath(url) != ""
  {
  }
}
