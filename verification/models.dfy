/** The records of lib/models: games, users, sessions and purchases.
    Prices are integer cents, ratings integer tenths of a point and every
    date an integer timestamp. */
module Models {

  datatype Option<+T> = None | Some(value: T)

  /** A document id as the store hands it out (an ObjectId rendered as a string). */
  type Id = string

  /** `role: "user" | "admin"` */
  datatype Role = UserRole | AdminRole

  /** A catalog entry (lib/models/VideoGame.ts). */
  datatype Game = Game(
    id: Id,
    title: string,
    description: string,
    price: int,          // cents
    coverImage: string,
    genre: string,
    platforms: seq<string>,
    developer: string,
    publisher: string,
    releaseDate: int,    // timestamp
    rating: int,         // tenths of a point, 0 to 100
    inStock: bool,
    createdAt: int,
    updatedAt: int)

  /** A stored account (lib/models/User.ts); `password` holds the hash. */
  datatype User = User(
    id: Id,
    email: string,
    password: string,
    name: string,
    role: Role,
    createdAt: int,
    updatedAt: int)

  /** The claims carried by the session token; it has no password field. */
  datatype UserSession = UserSession(userId: Id, email: string, name: string, role: Role)

  /** `status: "pending" | "completed" | "cancelled"` */
  datatype PurchaseStatus = Pending | Completed | Cancelled

  datatype PurchaseItem = PurchaseItem(gameId: Id, title: string, price: int, quantity: int)

  /** A stored purchase (lib/models/Purchase.ts). The owner is optional because
      the client sends `user?.userId`, which is dropped from the body when absent. */
  datatype Purchase = Purchase(
    id: Id,
    userId: Option<Id>,
    items: seq<PurchaseItem>,
    totalAmount: int,
    status: PurchaseStatus,
    createdAt: int,
    updatedAt: int)

  /** JavaScript truthiness of an optional string field: present and not empty. */
  predicate Truthy(field: Option<string>)
  {
    field.Some? && field.value != ""
  }
}
