/** The two MongoDB collections the route handlers use, as in-memory lists in
    insertion order, and the `findOne({ email })` lookup. */
module Store {
  import opened Models

  /** The document both account handlers insert: the given fields, the role
      forced to "user", and both dates set to the time of the request. */
  function NewAccount(email: string, hashedPassword: string, name: string, id: Id, now: int): (u: User)
    ensures u.role == UserRole && u.password == hashedPassword
    ensures u.email == email && u.name == name && u.id == id
    ensures u.createdAt == now == u.updatedAt
  {
    User(id, email, hashedPassword, name, UserRole, now, now)
  }

  /** The session record built from a stored user; it carries no password. */
  function SessionOf(u: User): (s: UserSession)
    ensures s.userId == u.id && s.email == u.email && s.name == u.name && s.role == u.role
  {
    UserSession(u.id, u.email, u.name, u.role)
  }

  /** `findOne({ email })`: the first stored user with that email, if any. */
  function FindByEmail(users: seq<User>, email: string): (r: Option<User>)
    ensures r.Some? ==> r.value in users && r.value.email == email
    ensures r.None? <==> forall u :: u in users ==> u.email != email
  {
    if users == [] then None
    else if users[0].email == email then Some(users[0])
    else FindByEmail(users[1..], email)
  }

  /** A user stored after every earlier user with the same email is not the
      one found; one stored when no earlier user has the email is. */
  lemma {:induction false} FindAfterInsert(users: seq<User>, u: User, email: string)
    ensures FindByEmail(users, email).Some? ==> FindByEmail(users + [u], email) == FindByEmail(users, email)
    ensures FindByEmail(users, email).None? && u.email == email ==> FindByEmail(users + [u], email) == Some(u)
    ensures FindByEmail(users, email).None? && u.email != email ==> FindByEmail(users + [u], email) == None
  {
    if users != [] {
      assert (users + [u])[1..] == users[1..] + [u];
      FindAfterInsert(users[1..], u, email);
    } else {
      assert users + [u] == [u];
    }
  }

  /** The `users` collection. */
  class UserCollection {
    var users: seq<User>

    constructor (users: seq<User>)
      ensures this.users == users
    {
      this.users := users;
    }

    /** `insertOne(user)`: the document is stored after the existing ones. */
    method InsertOne(user: User)
      modifies this
      ensures users == old(users) + [user]
    {
      users := users + [user];
    }
  }

  /** The `purchases` collection. */
  class PurchaseCollection {
    var purchases: seq<Purchase>

    constructor (purchases: seq<Purchase>)
      ensures this.purchases == purchases
    {
      this.purchases := purchases;
    }

    /** `insertOne(purchase)` */
    method InsertOne(purchase: Purchase)
      modifies this
      ensures purchases == old(purchases) + [purchase]
    {
      purchases := purchases + [purchase];
    }
  }
}
