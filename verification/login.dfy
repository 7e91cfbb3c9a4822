/** The login handler (app/api/auth/login/route.ts): it checks the body, looks
    the email up, compares the password with the stored hash and answers with
    the session and its cookie. It only reads the users. */
module LoginRoute {
  import opened Models
  import opened Http
  import opened Store
  import opened RegisterRoute

  /** `const { email, password } = await request.json()` */
  datatype LoginBody = LoginBody(email: Option<string>, password: Option<string>)

  const MissingCredentials: ApiError := ApiError(400, "Email and password are required")
  const InvalidCredentials: ApiError := ApiError(401, "Invalid credentials")

  /** `POST /api/auth/login`. `comparePassword(plain, hash)` and the token
      signer are parameters. */
  function Login(users: seq<User>, body: LoginBody, comparePassword: (string, string) -> bool,
                 generateToken: UserSession -> string): (r: Result<AuthSuccess>)
    ensures r == Err(MissingCredentials) <==> !Truthy(body.email) || !Truthy(body.password)
    ensures r == Err(InvalidCredentials) <==>
              Truthy(body.email) && Truthy(body.password) &&
              (FindByEmail(users, body.email.value).None? ||
               !comparePassword(body.password.value, FindByEmail(users, body.email.value).value.password))
    ensures Truthy(body.email) && Truthy(body.password) && FindByEmail(users, body.email.value).Some? &&
            comparePassword(body.password.value, FindByEmail(users, body.email.value).value.password) ==>
              var u := FindByEmail(users, body.email.value).value;
              r == Ok(AuthSuccess("Login successful", SessionOf(u), AuthCookie(generateToken(SessionOf(u)))))
    ensures r.Ok? ==>
              exists u :: u in users && u.email == body.email.value && comparePassword(body.password.value, u.password) &&
                r.value == AuthSuccess("Login successful", SessionOf(u), AuthCookie(generateToken(SessionOf(u))))
  {
    if !Truthy(body.email) || !Truthy(body.password) then Err(MissingCredentials)
    else
      match FindByEmail(users, body.email.value)
      case None => Err(InvalidCredentials)
      case Some(user) =>
        if !comparePassword(body.password.value, user.password) then Err(InvalidCredentials)
        else
          var session := SessionOf(user);
          Ok(AuthSuccess("Login successful", session, AuthCookie(generateToken(session))))
  }

  /** An unknown email and a wrong password get the same answer, so a caller
      cannot tell which accounts exist. */
  lemma UnknownEmailLooksLikeWrongPassword(users: seq<User>, unknown: LoginBody, wrong: LoginBody,
                                           comparePassword: (string, string) -> bool, generateToken: UserSession -> string)
    requires Truthy(unknown.email) && Truthy(unknown.password) && FindByEmail(users, unknown.email.value).None?
    requires Truthy(wrong.email) && Truthy(wrong.password)
    requires forall u :: u in users && u.email == wrong.email.value ==> !comparePassword(wrong.password.value, u.password)
    ensures Login(users, unknown, comparePassword, generateToken) == Login(users, wrong, comparePassword, generateToken)
    ensures Login(users, wrong, comparePassword, generateToken) == Err(InvalidCredentials)
  {
  }

  /** Right after a registration, logging in with the same email and password
      succeeds with the very session the registration returned, provided the
      comparison accepts a password against its own hash. */
  lemma RegisteredUserCanLogIn(users: seq<User>, body: RegisterBody, hashPassword: string -> string,
                               comparePassword: (string, string) -> bool, generateToken: UserSession -> string,
                               insertedId: Id, now: int)
    requires Validate(body).None? && FindByEmail(users, body.email.value).None?
    requires comparePassword(body.password.value, hashPassword(body.password.value))
    ensures
      var user := NewAccount(body.email.value, hashPassword(body.password.value), body.name.value, insertedId, now);
      Login(users + [user], LoginBody(body.email, body.password), comparePassword, generateToken) ==
        Ok(AuthSuccess("Login successful", SessionOf(user), AuthCookie(generateToken(SessionOf(user)))))
  {
    var user := NewAccount(body.email.value, hashPassword(body.password.value), body.name.value, insertedId, now);
    FindAfterInsert(users, user, body.email.value);
  }
}
