/** The purchases handler (app/api/purchases/route.ts): `GET` lists one user's
    purchases newest first, `POST` stores a purchase as pending. */
module PurchasesRoute {
  import opened Models
  import opened Http
  import opened Sequences
  import opened Store

  const UserIdRequired: ApiError := ApiError(400, "User ID required")

  function OwnedBy(userId: Id): Purchase -> bool { (p: Purchase) => p.userId == Some(userId) }

  /** `new Date(createdAt)` as a sort key. */
  function CreatedKey(): Purchase -> int { (p: Purchase) => p.createdAt }

  /** `GET /api/purchases?userId=...`: `find({ userId }).sort({ createdAt: -1 })`. */
  function GetPurchases(purchases: seq<Purchase>, userId: Option<string>): (r: Result<seq<Purchase>>)
    ensures r.Err? <==> !Truthy(userId)
    ensures r.Err? ==> r.error == UserIdRequired
    ensures r.Ok? ==> multiset(r.value) == multiset(Filter(purchases, OwnedBy(userId.value)))
    ensures r.Ok? ==> forall p :: p in r.value <==> p in purchases && p.userId == userId
    ensures r.Ok? ==> SortedDesc(r.value, CreatedKey())
  {
    if !Truthy(userId) then Err(UserIdRequired)
    else
      var mine := Filter(purchases, OwnedBy(userId.value));
      var sorted := SortDesc(mine, CreatedKey());
      assert forall p :: p in sorted <==> p in mine by {
        forall p ensures p in sorted <==> p in mine {
          assert p in sorted <==> p in multiset(sorted);
        }
      }
      Ok(sorted)
  }

  /** The listing holds each of the user's purchases as many times as the
      collection does, and nobody else's. */
  lemma ListingCountsEachPurchase(purchases: seq<Purchase>, userId: string, p: Purchase)
    requires userId != ""
    ensures GetPurchases(purchases, Some(userId)).Ok?
    ensures p.userId == Some(userId) ==> multiset(GetPurchases(purchases, Some(userId)).value)[p] == multiset(purchases)[p]
    ensures p.userId != Some(userId) ==> multiset(GetPurchases(purchases, Some(userId)).value)[p] == 0
  {
    FilterCount(purchases, OwnedBy(userId), p);
  }

  /** Filtering keeps every copy of a passing element and no copy of a failing one. */
  lemma {:induction false} FilterCount(s: seq<Purchase>, keep: Purchase -> bool, x: Purchase)
    ensures multiset(Filter(s, keep))[x] == if keep(x) then multiset(s)[x] else 0
  {
    if s != [] {
      FilterCount(s[1..], keep, x);
      assert s == [s[0]] + s[1..];
    }
  }

  /** The body of `POST /api/purchases`: whatever `status` it carries is overwritten. */
  datatype PurchaseBody = PurchaseBody(userId: Option<Id>, items: seq<PurchaseItem>, totalAmount: int, status: Option<PurchaseStatus>)

  /** The stored record: the body's fields, status "pending" and both dates now. */
  function NewPurchase(body: PurchaseBody, id: Id, now: int): (p: Purchase)
    ensures p.status == Pending
    ensures p.userId == body.userId && p.items == body.items && p.totalAmount == body.totalAmount
    ensures p.id == id && p.createdAt == now == p.updatedAt
  {
    Purchase(id, body.userId, body.items, body.totalAmount, Pending, now, now)
  }

  /** A record with its status: the 201 response. */
  datatype CreatedPurchase = CreatedPurchase(status: int, purchase: Purchase)

  /** `POST /api/purchases`; the id the store assigns and the clock are parameters. */
  method PostPurchase(db: PurchaseCollection, body: PurchaseBody, insertedId: Id, now: int) returns (r: CreatedPurchase)
    modifies db
    ensures r == CreatedPurchase(201, NewPurchase(body, insertedId, now))
    ensures r.purchase.status == Pending
    ensures db.purchases == old(db.purchases) + [r.purchase]
  {
    var purchase := NewPurchase(body, insertedId, now);
    db.InsertOne(purchase);
    r := CreatedPurchase(201, purchase);
  }

  /** A purchase posted for a user shows up in that user's listing, and if it
      is newer than everything stored before, it is listed first. */
  lemma PostedPurchaseIsListed(purchases: seq<Purchase>, body: PurchaseBody, id: Id, now: int, userId: string)
    requires userId != "" && body.userId == Some(userId)
    ensures GetPurchases(purchases + [NewPurchase(body, id, now)], Some(userId)).Ok?
    ensures NewPurchase(body, id, now) in GetPurchases(purchases + [NewPurchase(body, id, now)], Some(userId)).value
    ensures (forall q :: q in purchases ==> q.createdAt < now) ==>
              GetPurchases(purchases + [NewPurchase(body, id, now)], Some(userId)).value[0] == NewPurchase(body, id, now)
  {
    var p := NewPurchase(body, id, now);
    var listing := GetPurchases(purchases + [p], Some(userId)).value;
    assert p in purchases + [p];
    if forall q :: q in purchases ==> q.createdAt < now {
      assert p in listing;
      var k :| 0 <= k < |listing| && listing[k] == p;
      assert listing[0] in purchases + [p];
      assert CreatedKey()(listing[0]) >= CreatedKey()(listing[k]);
    }
  }
}
