/** The registration handler (app/api/auth/register/route.ts): it checks the
    body, refuses a taken email, stores the new account with a hashed password
    and answers with the session and its cookie. */
module RegisterRoute {
  import opened Models
  import opened Http
  import opened Store

  /** `const { email, password, name } = await request.json()`; a field the
      body leaves out is `None`. */
  datatype RegisterBody = RegisterBody(email: Option<string>, password: Option<string>, name: Option<string>)

  const MinPasswordLength: nat := 6

  const MissingFields: ApiError := ApiError(400, "All fields are required")
  const ShortPassword: ApiError := ApiError(400, "Password must be at least 6 characters")
  const UserExists: ApiError := ApiError(400, "User already exists")

  /** The checks made before the store is touched, in order: every field
      present and non-empty, then the password's length. */
  function Validate(body: RegisterBody): (r: Option<ApiError>)
    ensures r == Some(MissingFields) <==> !Truthy(body.email) || !Truthy(body.password) || !Truthy(body.name)
    ensures r == Some(ShortPassword) <==>
              Truthy(body.email) && Truthy(body.password) && Truthy(body.name) && |body.password.value| < MinPasswordLength
    ensures r.None? <==>
              Truthy(body.email) && Truthy(body.password) && Truthy(body.name) && |body.password.value| >= MinPasswordLength
  {
    if !Truthy(body.email) || !Truthy(body.password) || !Truthy(body.name) then Some(MissingFields)
    else if |body.password.value| < MinPasswordLength then Some(ShortPassword)
    else None
  }

  /** A six-character password is long enough and a five-character one is not. */
  lemma PasswordLengthBoundary()
    ensures Validate(RegisterBody(Some("a@b.c"), Some("secret"), Some("Ann"))).None?
    ensures Validate(RegisterBody(Some("a@b.c"), Some("short"), Some("Ann"))) == Some(ShortPassword)
    ensures Validate(RegisterBody(Some("a@b.c"), Some(""), Some("Ann"))) == Some(MissingFields)
  {
  }

  /** `POST /api/auth/register`. The password hash, the token signer, the id
      the store assigns and the clock are parameters. */
  method Register(db: UserCollection, body: RegisterBody, hashPassword: string -> string,
                  generateToken: UserSession -> string, insertedId: Id, now: int)
    returns (r: Result<AuthSuccess>)
    modifies db
    // a body that fails the checks is refused before the store is read
    ensures Validate(body).Some? ==> r == Err(Validate(body).value) && db.users == old(db.users)
    // a taken email is refused and nothing is stored
    ensures Validate(body).None? && FindByEmail(old(db.users), body.email.value).Some? ==>
              r == Err(UserExists) && db.users == old(db.users)
    // otherwise exactly one account is stored, holding the hash and the role "user"
    ensures Validate(body).None? && FindByEmail(old(db.users), body.email.value).None? ==>
              var user := NewAccount(body.email.value, hashPassword(body.password.value), body.name.value, insertedId, now);
              && db.users == old(db.users) + [user]
              && r == Ok(AuthSuccess("Registration successful", SessionOf(user), AuthCookie(generateToken(SessionOf(user)))))
    ensures r.Ok? <==> |db.users| == |old(db.users)| + 1
  {
    var invalid := Validate(body);
    if invalid.Some? {
      return Err(invalid.value);
    }
    var email, password, name := body.email.value, body.password.value, body.name.value;
    if FindByEmail(db.users, email).Some? {
      return Err(UserExists);
    }
    var user := NewAccount(email, hashPassword(password), name, insertedId, now);
    db.InsertOne(user);
    var session := SessionOf(user);
    r := Ok(AuthSuccess("Registration successful", session, AuthCookie(generateToken(session))));
  }
}
