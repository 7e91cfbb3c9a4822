/** The user-creation handler (app/api/users/route.ts): it refuses a taken
    email, stores the account with a hashed password and the role "user", and
    answers 201 with the stored fields except the password. Unlike
    registration it checks nothing else about the body. */
module UsersRoute {
  import opened Models
  import opened Http
  import opened Store

  /** The created user as the response shows it: every stored field but the password. */
  datatype UserView = UserView(id: Id, email: string, name: string, role: Role, createdAt: int, updatedAt: int)

  function ViewOf(u: User): (v: UserView)
    ensures v.id == u.id && v.email == u.email && v.name == u.name && v.role == u.role
    ensures v.createdAt == u.createdAt && v.updatedAt == u.updatedAt
  {
    UserView(u.id, u.email, u.name, u.role, u.createdAt, u.updatedAt)
  }

  /** Two stored users that differ only in their password hash look the same
      in the response, so the response reveals nothing about the password. */
  lemma ViewHidesPassword(u: User, hashed: string)
    ensures ViewOf(u.(password := hashed)) == ViewOf(u)
  {
  }

  /** A body the response is sent with, and its status. */
  datatype Created<T> = Created(status: int, body: T)

  const UserExists: ApiError := ApiError(400, "User already exists")

  /** `POST /api/users` with `email`, `password` and `name` read from the body.
      `bcrypt.hash(password, 12)`, the assigned id and the clock are parameters. */
  method CreateUser(db: UserCollection, email: string, password: string, name: string,
                    hashPassword: string -> string, insertedId: Id, now: int)
    returns (r: Result<Created<UserView>>)
    modifies db
    ensures FindByEmail(old(db.users), email).Some? ==> r == Err(UserExists) && db.users == old(db.users)
    ensures FindByEmail(old(db.users), email).None? ==>
              var user := NewAccount(email, hashPassword(password), name, insertedId, now);
              && db.users == old(db.users) + [user]
              && r == Ok(Created(201, ViewOf(user)))
              && r.value.body.role == UserRole
  {
    if FindByEmail(db.users, email).Some? {
      return Err(UserExists);
    }
    var user := NewAccount(email, hashPassword(password), name, insertedId, now);
    db.InsertOne(user);
    r := Ok(Created(201, ViewOf(user)));
  }
}
