/** The cart sheet (components/cart/cart-sidebar.tsx): whether the checkout
    form is shown, what the sheet displays for the cart, and what a
    completed checkout resets. */
module Sidebar {
  import opened Models
  import opened Cart

  /** What the sheet renders. */
  datatype SheetView = SheetView(
    badge: Option<int>,     // the item count next to the title
    checkoutForm: bool,     // the form instead of the item list
    emptyMessage: bool,     // "Your cart is empty"
    totalsSection: bool,    // the total, checkout and clear buttons
    checkoutEnabled: bool)  // `disabled={!user}` on the checkout button

  function Render(items: seq<CartItem>, showCheckout: bool, user: Option<UserSession>): (v: SheetView)
    ensures v.badge.Some? <==> TotalItems(items) > 0
    ensures v.badge.Some? ==> v.badge.value == TotalItems(items)
    ensures v.checkoutForm == showCheckout
    ensures v.emptyMessage <==> !showCheckout && items == []
    ensures v.totalsSection <==> !showCheckout && items != []
    ensures !(v.emptyMessage && v.totalsSection)
    ensures v.checkoutEnabled <==> user.Some?
  {
    SheetView(
      if TotalItems(items) > 0 then Some(TotalItems(items)) else None,
      showCheckout,
      !showCheckout && |items| == 0,
      !showCheckout && |items| > 0,
      user.Some?)
  }

  /** In a well-formed cart the badge and the totals section agree: both show
      exactly when the cart holds an entry. */
  lemma BadgeIffTotals(items: seq<CartItem>, user: Option<UserSession>)
    requires WellFormed(items)
    ensures Render(items, false, user).badge.Some? <==> Render(items, false, user).totalsSection
    ensures Render(items, false, user).badge.Some? <==> |items| > 0
  {
    TotalItemsPositiveIffNonEmpty(items);
  }

  /** The sheet's own state, over the cart it shares with the rest of the store. */
  class CartSidebar {
    const cart: CartStore
    var showCheckout: bool

    ghost predicate Valid()
      reads this, cart
    {
      cart.Valid()
    }

    /** `useState(false)` next to the provided cart. */
    constructor (cart: CartStore)
      requires cart.Valid()
      ensures this.cart == cart && !showCheckout && Valid()
    {
      this.cart := cart;
      showCheckout := false;
    }

    /** `handleCheckout`: without a user the alert is shown and nothing changes;
        with one the checkout form opens. */
    method HandleCheckout(user: Option<UserSession>) returns (alerted: bool)
      modifies this
      ensures alerted <==> user.None?
      ensures user.None? ==> showCheckout == old(showCheckout)
      ensures user.Some? ==> showCheckout
    {
      if user.None? {
        return true;
      }
      alerted := false;
      showCheckout := true;
    }

    /** The form's back button: `setShowCheckout(false)`. */
    method CancelCheckout()
      modifies this
      ensures !showCheckout
    {
      showCheckout := false;
    }

    /** `handleCheckoutSuccess`: back to the item list, the cart emptied and the sheet closed. */
    method HandleCheckoutSuccess()
      requires Valid()
      modifies this, cart
      ensures Valid()
      ensures !showCheckout && cart.items == [] && !cart.isOpen
      ensures TotalItems(cart.items) == 0 && TotalPrice(cart.items) == 0
    {
      showCheckout := false;
      cart.ClearCart();
      cart.SetIsOpen(false);
    }
  }
}
