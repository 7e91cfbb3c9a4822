/** The shopping-cart state container (contexts/cart-context.tsx): an ordered
    list of `{ game, quantity }` entries kept in the `items` state and replaced
    as a whole by every operation. */
module Cart {
  import opened Models
  import opened Sequences

  datatype CartItem = CartItem(game: Game, quantity: int)

  /** Some entry holds the game with this id (`prevItems.find(...)`). */
  predicate HasGame(items: seq<CartItem>, id: Id)
  {
    exists i :: 0 <= i < |items| && items[i].game.id == id
  }

  /** At most one entry per game id. */
  predicate UniqueIds(items: seq<CartItem>)
  {
    forall i, j :: 0 <= i < j < |items| ==> items[i].game.id != items[j].game.id
  }

  /** Every quantity is at least one. */
  predicate PositiveQuantities(items: seq<CartItem>)
  {
    forall i :: 0 <= i < |items| ==> items[i].quantity >= 1
  }

  /** The invariant every cart operation keeps. */
  predicate WellFormed(items: seq<CartItem>)
  {
    UniqueIds(items) && PositiveQuantities(items)
  }

  /** `item.game._id === id ? { ...item, quantity: item.quantity + 1 } : item`, over every entry. */
  function Incremented(items: seq<CartItem>, id: Id): (r: seq<CartItem>)
  {
    seq(|items|, i requires 0 <= i < |items| =>
      if items[i].game.id == id then items[i].(quantity := items[i].quantity + 1) else items[i])
  }

  /** `item.game._id === id ? { ...item, quantity } : item`, over every entry. */
  function WithQuantity(items: seq<CartItem>, id: Id, quantity: int): (r: seq<CartItem>)
  {
    seq(|items|, i requires 0 <= i < |items| =>
      if items[i].game.id == id then items[i].(quantity := quantity) else items[i])
  }

  /** The new item list of `addToCart(game)`. */
  function Added(items: seq<CartItem>, game: Game): (r: seq<CartItem>)
    ensures |r| == if HasGame(items, game.id) then |items| else |items| + 1
  {
    if HasGame(items, game.id) then Incremented(items, game.id) else items + [CartItem(game, 1)]
  }

  /** The test `removeFromCart(id)` keeps an entry by: `item.game._id !== id`. */
  function OtherThan(id: Id): CartItem -> bool
  {
    (item: CartItem) => item.game.id != id
  }

  /** The new item list of `removeFromCart(id)`. */
  function Removed(items: seq<CartItem>, id: Id): (r: seq<CartItem>)
    ensures |r| <= |items|
  {
    Filter(items, OtherThan(id))
  }

  /** The new item list of `updateQuantity(id, quantity)`. */
  function Updated(items: seq<CartItem>, id: Id, quantity: int): (r: seq<CartItem>)
    ensures |r| <= |items|
  {
    if quantity <= 0 then Removed(items, id) else WithQuantity(items, id, quantity)
  }

  /** `items.reduce((total, item) => total + item.quantity, 0)`, folded from the left. */
  function TotalItems(items: seq<CartItem>): (n: int)
    ensures PositiveQuantities(items) ==> n >= |items|
  {
    if items == [] then 0 else TotalItems(items[..|items| - 1]) + items[|items| - 1].quantity
  }

  /** What one entry contributes to the total price: `item.game.price * item.quantity`. */
  function LinePrice(item: CartItem): int
  {
    item.game.price * item.quantity
  }

  /** `items.reduce((total, item) => total + item.game.price * item.quantity, 0)`. */
  function TotalPrice(items: seq<CartItem>): (p: int)
    ensures (forall i :: 0 <= i < |items| ==> LinePrice(items[i]) >= 0) ==> p >= 0
  {
    if items == [] then 0 else TotalPrice(items[..|items| - 1]) + LinePrice(items[|items| - 1])
  }

  /** One more copy of an entry adds its game's price once. */
  lemma LinePriceIncrement(item: CartItem)
    ensures LinePrice(item.(quantity := item.quantity + 1)) == LinePrice(item) + item.game.price
  {
    assert item.game.price * (item.quantity + 1) == item.game.price * item.quantity + item.game.price;
  }

  // ---------------------------------------------------------------------
  // The totals are sums

  lemma {:induction false} TotalsAppend(a: seq<CartItem>, b: seq<CartItem>)
    ensures TotalItems(a + b) == TotalItems(a) + TotalItems(b)
    ensures TotalPrice(a + b) == TotalPrice(a) + TotalPrice(b)
    decreases |b|
  {
    if b != [] {
      var b' := b[..|b| - 1];
      assert (a + b)[..|a + b| - 1] == a + b';
      TotalsAppend(a, b');
    } else {
      assert a + b == a;
    }
  }

  /** A one-entry cart counts that entry's quantity and line price. */
  lemma TotalsSingle(x: CartItem)
    ensures TotalItems([x]) == x.quantity && TotalPrice([x]) == LinePrice(x)
  {
    assert [x][..0] == [];
  }

  /** Replacing one entry changes the totals by the difference of that entry alone. */
  lemma TotalsReplace(items: seq<CartItem>, k: nat, x: CartItem)
    requires k < |items|
    ensures TotalItems(items[k := x]) == TotalItems(items) - items[k].quantity + x.quantity
    ensures TotalPrice(items[k := x]) == TotalPrice(items) - LinePrice(items[k]) + LinePrice(x)
  {
    var before, after := items[..k], items[k + 1..];
    assert items == before + ([items[k]] + after);
    assert items[k := x] == before + ([x] + after);
    TotalsAppend(before, [items[k]] + after);
    TotalsAppend(before, [x] + after);
    TotalsAppend([items[k]], after);
    TotalsAppend([x], after);
    TotalsSingle(items[k]);
    TotalsSingle(x);
  }

  // ---------------------------------------------------------------------
  // addToCart (contexts/cart-context.tsx:46-56)

  /** A game whose id is absent is appended with quantity 1; earlier entries stay. */
  lemma AddAbsent(items: seq<CartItem>, game: Game)
    requires !HasGame(items, game.id)
    ensures Added(items, game) == items + [CartItem(game, 1)]
    ensures Added(items, game)[..|items|] == items
    ensures TotalItems(Added(items, game)) == TotalItems(items) + 1
    ensures TotalPrice(Added(items, game)) == TotalPrice(items) + game.price
  {
    TotalsAppend(items, [CartItem(game, 1)]);
    TotalsSingle(CartItem(game, 1));
  }

  /** In a cart with unique ids, mapping over the entries touches only index `k`. */
  lemma IncrementedAt(items: seq<CartItem>, k: nat)
    requires UniqueIds(items) && k < |items|
    ensures Incremented(items, items[k].game.id) == items[k := items[k].(quantity := items[k].quantity + 1)]
  {
    var r := Incremented(items, items[k].game.id);
    forall i | 0 <= i < |items| && i != k ensures r[i] == items[i] {
      if i < k {
        assert items[i].game.id != items[k].game.id;
      } else {
        assert items[k].game.id != items[i].game.id;
      }
    }
  }

  /** One more copy of the entry at `k` adds one item and that entry's price. */
  lemma TotalsBump(items: seq<CartItem>, k: nat)
    requires k < |items|
    ensures TotalItems(items[k := items[k].(quantity := items[k].quantity + 1)]) == TotalItems(items) + 1
    ensures TotalPrice(items[k := items[k].(quantity := items[k].quantity + 1)]) == TotalPrice(items) + items[k].game.price
  {
    TotalsReplace(items, k, items[k].(quantity := items[k].quantity + 1));
    LinePriceIncrement(items[k]);
  }

  /** A game already at index `k` has only that entry's quantity raised by one;
      length and order are kept, and the price grows by the stored entry's price. */
  lemma AddPresent(items: seq<CartItem>, game: Game, k: nat)
    requires UniqueIds(items)
    requires k < |items| && items[k].game.id == game.id
    ensures Added(items, game) == items[k := items[k].(quantity := items[k].quantity + 1)]
    ensures TotalItems(Added(items, game)) == TotalItems(items) + 1
    ensures TotalPrice(Added(items, game)) == TotalPrice(items) + items[k].game.price
  {
    assert HasGame(items, game.id);
    IncrementedAt(items, k);
    TotalsBump(items, k);
  }

  lemma AddPreservesWellFormed(items: seq<CartItem>, game: Game)
    requires WellFormed(items)
    ensures WellFormed(Added(items, game))
  {
    if HasGame(items, game.id) {
      var k :| 0 <= k < |items| && items[k].game.id == game.id;
      AddPresent(items, game, k);
    } else {
      AddAbsent(items, game);
    }
  }

  // ---------------------------------------------------------------------
  // removeFromCart (contexts/cart-context.tsx:58-60)

  /** Deleting the entry at `k` lowers the totals by that entry's share. */
  lemma TotalsDelete(items: seq<CartItem>, k: nat)
    requires k < |items|
    ensures TotalItems(items[..k] + items[k + 1..]) == TotalItems(items) - items[k].quantity
    ensures TotalPrice(items[..k] + items[k + 1..]) == TotalPrice(items) - LinePrice(items[k])
  {
    var before, after := items[..k], items[k + 1..];
    var rest := [items[k]] + after;
    assert items == before + rest;
    TotalsAppend(before, rest);
    TotalsAppend([items[k]], after);
    TotalsSingle(items[k]);
    TotalsAppend(before, after);
  }

  /** With unique ids, filtering out the id held at `k` deletes exactly that entry. */
  lemma {:induction false} RemovedAt(items: seq<CartItem>, k: nat)
    requires UniqueIds(items) && k < |items|
    ensures Removed(items, items[k].game.id) == items[..k] + items[k + 1..]
  {
    var id := items[k].game.id;
    if k == 0 {
      forall x | x in items[1..] ensures OtherThan(id)(x) {
        var i :| 0 <= i < |items[1..]| && items[1..][i] == x;
        assert items[i + 1] == x;
      }
      FilterKeepsAll(items[1..], OtherThan(id));
    } else {
      assert items[1..][k - 1] == items[k];
      RemovedAt(items[1..], k - 1);
      assert items[0].game.id != id;
      assert items[..k] == [items[0]] + items[1..][..k - 1];
      assert items[k + 1..] == items[1..][k..];
    }
  }

  /** Removing an id held at index `k` deletes exactly that entry and keeps the
      rest in order; the totals drop by that entry's share. */
  lemma RemovePresent(items: seq<CartItem>, id: Id, k: nat)
    requires UniqueIds(items)
    requires k < |items| && items[k].game.id == id
    ensures Removed(items, id) == items[..k] + items[k + 1..]
    ensures TotalItems(Removed(items, id)) == TotalItems(items) - items[k].quantity
    ensures TotalPrice(Removed(items, id)) == TotalPrice(items) - LinePrice(items[k])
  {
    RemovedAt(items, k);
    TotalsDelete(items, k);
  }

  /** Removing an absent id changes nothing. */
  lemma RemoveAbsent(items: seq<CartItem>, id: Id)
    requires !HasGame(items, id)
    ensures Removed(items, id) == items
  {
    var keep := OtherThan(id);
    forall x | x in items ensures keep(x) {
      var i :| 0 <= i < |items| && items[i] == x;
    }
    FilterKeepsAll(items, keep);
  }

  /** Deleting one entry keeps the invariant, and no entry left shares its id. */
  lemma DeleteAtPreserves(items: seq<CartItem>, k: nat)
    requires WellFormed(items) && k < |items|
    ensures WellFormed(items[..k] + items[k + 1..])
    ensures !HasGame(items[..k] + items[k + 1..], items[k].game.id)
  {
    var r := items[..k] + items[k + 1..];
    assert forall i :: 0 <= i < |r| ==> r[i] == items[if i < k then i else i + 1];
  }

  lemma RemovePreservesWellFormed(items: seq<CartItem>, id: Id)
    requires WellFormed(items)
    ensures WellFormed(Removed(items, id))
    ensures !HasGame(Removed(items, id), id)
  {
    if HasGame(items, id) {
      var k :| 0 <= k < |items| && items[k].game.id == id;
      RemovedAt(items, k);
      DeleteAtPreserves(items, k);
    } else {
      RemoveAbsent(items, id);
    }
  }

  // ---------------------------------------------------------------------
  // updateQuantity (contexts/cart-context.tsx:62-69)

  /** A quantity of zero or less is exactly a removal. */
  lemma UpdateNonPositiveRemoves(items: seq<CartItem>, id: Id, quantity: int)
    requires quantity <= 0
    ensures Updated(items, id, quantity) == Removed(items, id)
    ensures !HasGame(Updated(items, id, quantity), id)
  {
    var r := Removed(items, id);
    forall i | 0 <= i < |r| ensures r[i].game.id != id {
      assert r[i] in r;
    }
  }

  /** A positive quantity replaces only the matching entry's quantity. */
  lemma UpdatePresent(items: seq<CartItem>, id: Id, quantity: int, k: nat)
    requires UniqueIds(items)
    requires quantity > 0 && k < |items| && items[k].game.id == id
    ensures Updated(items, id, quantity) == items[k := items[k].(quantity := quantity)]
    ensures TotalItems(Updated(items, id, quantity)) == TotalItems(items) - items[k].quantity + quantity
  {
    var r := Updated(items, id, quantity);
    var expected := items[k := items[k].(quantity := quantity)];
    forall i | 0 <= i < |items| ensures r[i] == expected[i] {
      if i != k {
        assert i < k ==> items[i].game.id != items[k].game.id;
        assert i > k ==> items[k].game.id != items[i].game.id;
      }
    }
    TotalsReplace(items, k, items[k].(quantity := quantity));
  }

  /** A positive quantity for an absent id changes nothing: it never inserts. */
  lemma UpdateAbsent(items: seq<CartItem>, id: Id, quantity: int)
    requires quantity > 0 && !HasGame(items, id)
    ensures Updated(items, id, quantity) == items
  {
    var r := Updated(items, id, quantity);
    forall i | 0 <= i < |items| ensures r[i] == items[i] {
      assert items[i].game.id != id;
    }
  }

  lemma UpdatePreservesWellFormed(items: seq<CartItem>, id: Id, quantity: int)
    requires WellFormed(items)
    ensures WellFormed(Updated(items, id, quantity))
  {
    if quantity <= 0 {
      RemovePreservesWellFormed(items, id);
    } else if HasGame(items, id) {
      var k :| 0 <= k < |items| && items[k].game.id == id;
      UpdatePresent(items, id, quantity, k);
    } else {
      UpdateAbsent(items, id, quantity);
    }
  }

  /** In a well-formed cart the item count is positive exactly when the cart
      holds an entry (the badge and the total section agree). */
  lemma {:induction false} TotalItemsPositiveIffNonEmpty(items: seq<CartItem>)
    requires PositiveQuantities(items)
    ensures TotalItems(items) > 0 <==> |items| > 0
  {
  }

  // ---------------------------------------------------------------------
  // The provider's state

  /** The state held by `CartProvider`: the `items` list and the sheet's `isOpen` flag. */
  class CartStore {
    var items: seq<CartItem>
    var isOpen: bool

    ghost predicate Valid()
      reads this
    {
      WellFormed(items)
    }

    /** `useState<CartItem[]>([])`, `useState(false)`. */
    constructor ()
      ensures Valid() && items == [] && !isOpen
    {
      items := [];
      isOpen := false;
    }

    method AddToCart(game: Game)
      requires Valid()
      modifies this
      ensures Valid()
      ensures items == Added(old(items), game)
      ensures TotalItems(items) == TotalItems(old(items)) + 1
      ensures isOpen == old(isOpen)
    {
      AddPreservesWellFormed(items, game);
      if HasGame(items, game.id) {
        var k :| 0 <= k < |items| && items[k].game.id == game.id;
        AddPresent(items, game, k);
      } else {
        AddAbsent(items, game);
      }
      items := Added(items, game);
    }

    method RemoveFromCart(gameId: Id)
      requires Valid()
      modifies this
      ensures Valid()
      ensures items == Removed(old(items), gameId)
      ensures !HasGame(items, gameId)
      ensures isOpen == old(isOpen)
    {
      RemovePreservesWellFormed(items, gameId);
      items := Removed(items, gameId);
    }

    method UpdateQuantity(gameId: Id, quantity: int)
      requires Valid()
      modifies this
      ensures Valid()
      ensures items == Updated(old(items), gameId, quantity)
      ensures quantity <= 0 ==> items == Removed(old(items), gameId)
      ensures isOpen == old(isOpen)
    {
      if quantity <= 0 {
        RemoveFromCart(gameId);
        return;
      }
      UpdatePreservesWellFormed(items, gameId, quantity);
      items := WithQuantity(items, gameId, quantity);
    }

    method ClearCart()
      requires Valid()
      modifies this
      ensures Valid()
      ensures items == [] && TotalItems(items) == 0 && TotalPrice(items) == 0
      ensures isOpen == old(isOpen)
    {
      items := [];
    }

    method SetIsOpen(open: bool)
      modifies this
      ensures isOpen == open && items == old(items)
    {
      isOpen := open;
    }
  }
}
