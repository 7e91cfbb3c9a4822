/** The admin route guard (middleware.ts): the route matcher hands the
    middleware the paths "/admin" and "/admin/..."; there, a request whose path
    starts with "/admin" goes through only with a verified token carrying the
    admin role, and every other request goes through untouched. */
module Middleware {
  import opened Models
  import opened Http
  import opened Store
  import opened LoginRoute

  datatype Decision = Next | RedirectHome

  const AdminPrefix: string := "/admin"

  /** `middleware(request)`: `token` is the `auth-token` cookie's value, if any,
      and `verifyToken` answers `None` for a token it rejects. */
  function Guard(pathname: string, token: Option<string>, verifyToken: string -> Option<UserSession>): (d: Decision)
    ensures !(AdminPrefix <= pathname) ==> d == Next
    ensures AdminPrefix <= pathname && !Truthy(token) ==> d == RedirectHome
    ensures AdminPrefix <= pathname && Truthy(token) && verifyToken(token.value).None? ==> d == RedirectHome
    ensures AdminPrefix <= pathname && Truthy(token) && verifyToken(token.value).Some? ==>
              (d == Next <==> verifyToken(token.value).value.role == AdminRole)
  {
    if AdminPrefix <= pathname then
      if !Truthy(token) then RedirectHome
      else
        match verifyToken(token.value)
        case None => RedirectHome
        case Some(user) => if user.role != AdminRole then RedirectHome else Next
    else Next
  }

  /** Over every input, the function lets a request through exactly when its
      path does not start with "/admin" or it carries a verified admin session. */
  lemma GuardLetsThrough(pathname: string, token: Option<string>, verifyToken: string -> Option<UserSession>)
    ensures Guard(pathname, token, verifyToken) == Next <==>
              !(AdminPrefix <= pathname) ||
              (Truthy(token) && verifyToken(token.value).Some? && verifyToken(token.value).value.role == AdminRole)
  {
  }

  /** The function's own test is a plain string prefix: it rejects "/adminx"
      and "/admin/games" without a token, and lets "/" and "/cart" through
      whatever the token. */
  lemma PrefixExamples(token: Option<string>, verifyToken: string -> Option<UserSession>)
    ensures Guard("/adminx", None, verifyToken) == RedirectHome
    ensures Guard("/admin/games", None, verifyToken) == RedirectHome
    ensures Guard("/", token, verifyToken) == Next
    ensures Guard("/cart", token, verifyToken) == Next
  {
    assert !(AdminPrefix <= "/");
    assert "/cart"[1] != AdminPrefix[1];
  }

  /** `config.matcher` `["/admin/:path*"]`: "/admin" itself, or "/admin/"
      followed by any path. */
  predicate MatcherApplies(pathname: string)
    ensures MatcherApplies(pathname) ==> AdminPrefix <= pathname
    ensures MatcherApplies(pathname) ==> |pathname| == |AdminPrefix| || pathname[|AdminPrefix|] == '/'
  {
    assert AdminPrefix + "/" <= pathname ==> pathname[..|AdminPrefix|] == (AdminPrefix + "/")[..|AdminPrefix|];
    pathname == AdminPrefix || AdminPrefix + "/" <= pathname
  }

  /** A request as the server handles it: the middleware runs only on paths
      the matcher selects, and every other request goes on untouched. */
  function HandleRequest(pathname: string, token: Option<string>, verifyToken: string -> Option<UserSession>): (d: Decision)
    ensures d == Next <==>
              !MatcherApplies(pathname) ||
              (Truthy(token) && verifyToken(token.value).Some? && verifyToken(token.value).value.role == AdminRole)
  {
    if MatcherApplies(pathname) then Guard(pathname, token, verifyToken) else Next
  }

  /** Every path the matcher selects passes the function's own prefix test, so
      inside the middleware that test never lets a request skip the token
      check; the only difference between the two is on paths such as "/adminx",
      which the function would reject but the matcher never hands it. */
  lemma MatcherWithinPrefix(pathname: string, verifyToken: string -> Option<UserSession>)
    ensures MatcherApplies(pathname) ==> AdminPrefix <= pathname
    ensures MatcherApplies(pathname) ==> HandleRequest(pathname, None, verifyToken) == RedirectHome
    ensures HandleRequest("/adminx", None, verifyToken) == Next
    ensures Guard("/adminx", None, verifyToken) == RedirectHome
  {
    if AdminPrefix + "/" <= pathname {
      assert pathname[..|AdminPrefix|] == (AdminPrefix + "/")[..|AdminPrefix|];
    }
    assert "/adminx"[6] != '/';
    assert "/adminx" != AdminPrefix;
  }

  /** The cookie a login sets opens the admin pages exactly for a stored admin,
      given a verifier that accepts the tokens the signer makes and a signer
      that never makes an empty token. */
  lemma LoginCookieOpensAdminOnlyForAdmins(users: seq<User>, body: LoginBody,
                                            comparePassword: (string, string) -> bool,
                                            generateToken: UserSession -> string,
                                            verifyToken: string -> Option<UserSession>, pathname: string)
    requires Login(users, body, comparePassword, generateToken).Ok?
    requires forall s :: verifyToken(generateToken(s)) == Some(s) && generateToken(s) != ""
    requires AdminPrefix <= pathname
    ensures
      var success := Login(users, body, comparePassword, generateToken).value;
      Guard(pathname, Some(success.cookie.value), verifyToken) == Next <==>
        FindByEmail(users, body.email.value).value.role == AdminRole
  {
    var success := Login(users, body, comparePassword, generateToken).value;
    var user := FindByEmail(users, body.email.value).value;
    assert success.user == SessionOf(user);
    assert verifyToken(generateToken(success.user)) == Some(success.user);
  }
}
