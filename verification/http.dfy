/**
 * What route handlers see of a request's session and what they answer: redirects,
 * JSON or text replies, pass-through and rewrites, with the cookies a response sets.
 */
module Http {
  import opened Wrappers

  /** The user of the signed-in session (`session.user`), as the authentication provider gives it. */
  datatype SessionUser = SessionUser(id: Option<string>, email: Option<string>, name: Option<string>)

  /** `session?.user?.id` when it is truthy: the id of a signed-in user. */
  function SignedInId(session: Option<SessionUser>): (r: Option<string>)
    ensures r.Some? <==> session.Some? && session.value.id.Some? && session.value.id.value != ""
    ensures r.Some? ==> r.value == session.value.id.value
  {
    if session.Some? && session.value.id.Some? && session.value.id.value != "" then session.value.id else None
  }

  datatype CookieOptions = CookieOptions(httpOnly: bool, sameSite: string, secure: bool, path: string, maxAge: nat)

  /** A `Set-Cookie` instruction: set a value, or delete the cookie. */
  datatype CookieOp = SetCookie(value: string, options: CookieOptions) | DeleteCookie

  /** A same-origin path with its query parameters in order, or an absolute URL elsewhere. */
  datatype Location = Local(path: string, query: seq<(string, string)>) | External(url: string)

  datatype Response =
    | Redirect(status: nat, location: Location, cookies: map<string, CookieOp>)
    | Reply(status: nat, message: string)   // a JSON `error`/`message` field or a plain-text body
    | Continue                              // `NextResponse.next()`
    | Rewrite(path: string, search: string) // `NextResponse.rewrite(url)`

  /** The cookies a response under construction carries (`response.cookies`). */
  class ResponseCookies {
    var jar: map<string, CookieOp>

    constructor ()
      ensures jar == map[]
    {
      jar := map[];
    }

    method Set(name: string, value: string, options: CookieOptions)
      modifies this
      ensures jar == old(jar)[name := SetCookie(value, options)]
    {
      jar := jar[name := SetCookie(value, options)];
    }

    method Delete(name: string)
      modifies this
      ensures jar == old(jar)[name := DeleteCookie]
    {
      jar := jar[name := DeleteCookie];
    }
  }

  /** `new URL("/signin?callback=/intake", request.url)` with status 302. */
  const SignInToIntake: Response := Redirect(302, Local("/signin", [("callback", "/intake")]), map[])

  /** `/intake?error=<message>` with status 302 and no cookie change. */
  function IntakeError(message: string): Response {
    Redirect(302, Local("/intake", [("error", message)]), map[])
  }
}
