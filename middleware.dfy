/**
 * The page-access decision run before every request: static assets, the sign-in and
 * sign-up pages and the API are let through; any other page needs a `token` cookie that
 * verifies, and is otherwise redirected to the sign-in page. Token verification and
 * `encodeURI` are parameters.
 */
module Middleware {
  import opened Common
  import opened Text

  const PublicRoutes: seq<string> := ["/auth/signin", "/auth/signup"]
  const ApiRoutes: seq<string> := ["/api/"]
  const StaticAssets: seq<string> := ["/_next/", "/favicon.ico", "/images/"]

  /**
   * `next()`, or a redirect to '/auth/signin' carrying a `callbackUrl` query parameter or
   * not, and deleting the `token` cookie or not.
   */
  datatype Decision = Next | RedirectToSignIn(callbackUrl: Option<string>, deleteTokenCookie: bool)

  /** `prefixes.some(p => pathname.startsWith(p))`. */
  predicate StartsWithAny(pathname: string, prefixes: seq<string>)
  {
    exists k :: 0 <= k < |prefixes| && StartsWith(pathname, prefixes[k])
  }

  /** The paths let through before any token is looked at. */
  predicate Exempt(pathname: string)
  {
    StartsWithAny(pathname, StaticAssets) || StartsWithAny(pathname, PublicRoutes) || StartsWithAny(pathname, ApiRoutes)
  }

  /** `!token`: a missing cookie and an empty one are alike. */
  predicate HasToken(token: Option<string>)
  {
    token.Some? && token.value != ""
  }

  /**
   * `middleware(request)`: `verifies(t)` says whether `jwt.verify(t, secret)` returns a
   * (truthy) payload instead of throwing; `encodeUri` is `encodeURI`.
   */
  function Decide(pathname: string, url: string, token: Option<string>,
                  verifies: string -> bool, encodeUri: string -> string): Decision
  {
    if StartsWithAny(pathname, StaticAssets) then Next
    else if StartsWithAny(pathname, PublicRoutes) then Next
    else if StartsWithAny(pathname, ApiRoutes) then Next
    else if !HasToken(token) then RedirectToSignIn(Some(encodeUri(url)), false)
    else if verifies(token.value) then Next
    else RedirectToSignIn(None, true)
  }

  /**
   * A request goes through exactly when its path is exempt or it carries a token that
   * verifies; a protected page is never served without one.
   */
  lemma NextIff(pathname: string, url: string, token: Option<string>, verifies: string -> bool, encodeUri: string -> string)
    ensures Decide(pathname, url, token, verifies, encodeUri) == Next <==>
      Exempt(pathname) || (HasToken(token) && verifies(token.value))
  {
  }

  /** The callback is set exactly when a protected page is asked for without a token. */
  lemma CallbackIff(pathname: string, url: string, token: Option<string>, verifies: string -> bool, encodeUri: string -> string)
    ensures Decide(pathname, url, token, verifies, encodeUri) == RedirectToSignIn(Some(encodeUri(url)), false) <==>
      !Exempt(pathname) && !HasToken(token)
  {
  }

  /** The cookie is deleted exactly when a protected page is asked for with a token that fails. */
  lemma DeleteCookieIff(pathname: string, url: string, token: Option<string>, verifies: string -> bool, encodeUri: string -> string)
    ensures Decide(pathname, url, token, verifies, encodeUri) == RedirectToSignIn(None, true) <==>
      !Exempt(pathname) && HasToken(token) && !verifies(token.value)
  {
  }

  /** On an exempt path the decision does not depend on the token or on verification. */
  lemma ExemptIgnoresToken(pathname: string, url: string, t1: Option<string>, t2: Option<string>,
                           v1: string -> bool, v2: string -> bool, encodeUri: string -> string)
    requires Exempt(pathname)
    ensures Decide(pathname, url, t1, v1, encodeUri) == Decide(pathname, url, t2, v2, encodeUri) == Next
  {
  }

  /** Each of the listed prefixes opens every path that starts with it. */
  lemma PrefixesAreExempt(pathname: string)
    requires StartsWith(pathname, "/_next/") || StartsWith(pathname, "/favicon.ico") || StartsWith(pathname, "/images/")
      || StartsWith(pathname, "/auth/signin") || StartsWith(pathname, "/auth/signup") || StartsWith(pathname, "/api/")
    ensures Exempt(pathname)
  {
    if StartsWith(pathname, "/_next/") {
      assert StaticAssets[0] == "/_next/";
    } else if StartsWith(pathname, "/favicon.ico") {
      assert StaticAssets[1] == "/favicon.ico";
    } else if StartsWith(pathname, "/images/") {
      assert StaticAssets[2] == "/images/";
    } else if StartsWith(pathname, "/auth/signin") {
      assert PublicRoutes[0] == "/auth/signin";
    } else if StartsWith(pathname, "/auth/signup") {
      assert PublicRoutes[1] == "/auth/signup";
    } else {
      assert ApiRoutes[0] == "/api/";
    }
  }
}
