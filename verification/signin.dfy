/**
 * The sign-in page's callback handling (app/signin/page.tsx). The `callback` query
 * parameter chooses where a signed-in user goes next; anything that is not a single
 * string starting with "/" falls back to the dashboard.
 *
 * The guard as written also lets through "//host/…" (and "/\host/…"), which a browser
 * reads as a link to another site. `CallbackUrlAsWritten` is the guard as written and
 * `ProtocolRelativeCallbackEscapes` exhibits the escape; `CallbackUrl` is the guard that
 * keeps the user on the site, and it is the one the page model uses.
 */
module SignIn {
  import opened Wrappers
  import opened Strings
  import opened Http

  /** A query parameter as the page receives it: one value, or several. */
  datatype QueryValue = One(text: string) | Many(texts: seq<string>)

  /** What the page does: redirect the signed-in user, or show the sign-in button for the callback. */
  datatype Page = RedirectTo(url: string) | ShowSignIn(callbackUrl: string)

  const DefaultCallback := "/dashboard"

  /** A single string value of the parameter (`typeof callback === "string"`). */
  function CallbackParam(callback: Option<QueryValue>): Option<string> {
    if callback.Some? && callback.value.One? then Some(callback.value.text) else None
  }

  /** The guard as written: a truthy string starting with "/" is used verbatim. */
  function CallbackUrlAsWritten(callback: Option<QueryValue>): (r: string)
    ensures StartsWith(r, "/")
    ensures IsSet(CallbackParam(callback)) && StartsWith(CallbackParam(callback).value, "/") ==>
              r == CallbackParam(callback).value
    ensures !(IsSet(CallbackParam(callback)) && StartsWith(CallbackParam(callback).value, "/")) ==> r == DefaultCallback
  {
    var param := CallbackParam(callback);
    if IsSet(param) && StartsWith(param.value, "/") then param.value else DefaultCallback
  }

  /** A path on this site: one "/" not followed by another "/" or a "\". */
  predicate IsLocalPath(url: string) {
    |url| >= 1 && url[0] == '/' && (|url| == 1 || (url[1] != '/' && url[1] != '\\'))
  }

  /** The guard as written sends a signed-in user to another site given "//evil.example". */
  lemma ProtocolRelativeCallbackEscapes()
    ensures CallbackUrlAsWritten(Some(One("//evil.example"))) == "//evil.example"
    ensures !IsLocalPath(CallbackUrlAsWritten(Some(One("//evil.example"))))
  {
    assert StartsWith("//evil.example", "/");
  }

  /** The callback URL: the parameter when it is a path on this site, the dashboard otherwise. */
  function CallbackUrl(callback: Option<QueryValue>): (r: string)
    ensures IsLocalPath(r) && StartsWith(r, "/")
    ensures CallbackParam(callback).Some? && IsLocalPath(CallbackParam(callback).value) ==> r == CallbackParam(callback).value
    ensures !(CallbackParam(callback).Some? && IsLocalPath(CallbackParam(callback).value)) ==> r == DefaultCallback
  {
    var param := CallbackParam(callback);
    if param.Some? && IsLocalPath(param.value) then param.value else DefaultCallback
  }

  /** The corrected guard differs from the written one only where the written one leaves the site. */
  lemma CallbackUrlAgrees(callback: Option<QueryValue>)
    ensures IsLocalPath(CallbackUrlAsWritten(callback)) ==> CallbackUrl(callback) == CallbackUrlAsWritten(callback)
    ensures !IsLocalPath(CallbackUrlAsWritten(callback)) ==> CallbackUrl(callback) == DefaultCallback
  {
  }

  /** Feeding the chosen URL back in as the callback chooses it again. */
  lemma CallbackUrlIdempotent(callback: Option<QueryValue>)
    ensures CallbackUrl(Some(One(CallbackUrl(callback)))) == CallbackUrl(callback)
  {
  }

  /** The page: a signed-in user is redirected to the callback URL; otherwise the sign-in button carries it. */
  function SignInPage(session: Option<SessionUser>, callback: Option<QueryValue>): (r: Page)
    ensures session.Some? <==> r.RedirectTo?
    ensures r.RedirectTo? ==> r.url == CallbackUrl(callback) && IsLocalPath(r.url)
    ensures r.ShowSignIn? ==> r.callbackUrl == CallbackUrl(callback)
  {
    var callbackUrl := CallbackUrl(callback);
    if session.Some? then RedirectTo(callbackUrl) else ShowSignIn(callbackUrl)
  }
}
