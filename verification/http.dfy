/** What the route handlers send back and what a client `fetch` can end in. */
module Http {
  import opened Models

  /** `maxAge: 7 * 24 * 60 * 60`, the lifetime of the session cookie in seconds. */
  const SessionMaxAge: int := 7 * 24 * 60 * 60

  const AuthCookieName: string := "auth-token"

  /** An error body `{ error }` with its status code. */
  datatype ApiError = ApiError(status: int, error: string)

  /** A handler's answer: the success body, or an error body with its status. */
  datatype Result<T> = Ok(value: T) | Err(error: ApiError)

  /** The `auth-token` cookie set by login and registration. Whether it is
      `secure` depends on the deployment and is not part of the model. */
  datatype Cookie = Cookie(name: string, value: string, httpOnly: bool, sameSiteStrict: bool, maxAge: int)

  /** The cookie both auth handlers attach to a successful response. */
  function AuthCookie(token: string): (c: Cookie)
    ensures c.name == "auth-token" && c.value == token
    ensures c.httpOnly && c.sameSiteStrict
    ensures c.maxAge == 604800
  {
    Cookie(AuthCookieName, token, true, true, SessionMaxAge)
  }

  /** The body of a successful login or registration, with the cookie it sets. */
  datatype AuthSuccess = AuthSuccess(message: string, user: UserSession, cookie: Cookie)

  /** How a client-side `fetch` ends: a response with `ok` set, one without,
      or a rejected promise. */
  datatype FetchOutcome = ResponseOk | ResponseNotOk | NetworkError
}
