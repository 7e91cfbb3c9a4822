/** The checkout form (components/cart/checkout-form.tsx): the purchase payload
    it builds from the cart and the `loading` flag around the submission. */
module Checkout {
  import opened Models
  import opened Http
  import opened Cart
  import opened PurchasesRoute

  /** One cart entry as the payload carries it. */
  function LineItem(item: CartItem): (p: PurchaseItem)
    ensures p.gameId == item.game.id && p.title == item.game.title
    ensures p.price == item.game.price && p.quantity == item.quantity
  {
    PurchaseItem(item.game.id, item.game.title, item.game.price, item.quantity)
  }

  /** `items.map((item) => ({ gameId, title, price, quantity }))` */
  function LineItems(items: seq<CartItem>): (r: seq<PurchaseItem>)
    ensures |r| == |items|
    ensures forall i :: 0 <= i < |items| ==> r[i] == LineItem(items[i])
  {
    if items == [] then [] else LineItems(items[..|items| - 1]) + [LineItem(items[|items| - 1])]
  }

  /** The amount a list of purchase lines adds up to. */
  function LinesTotal(lines: seq<PurchaseItem>): int
  {
    if lines == [] then 0
    else LinesTotal(lines[..|lines| - 1]) + lines[|lines| - 1].price * lines[|lines| - 1].quantity
  }

  /** The payload's lines add up to the cart's `getTotalPrice()`, so the
      `totalAmount` it sends agrees with the lines it sends. */
  lemma {:induction false} LineItemsTotal(items: seq<CartItem>)
    ensures LinesTotal(LineItems(items)) == TotalPrice(items)
  {
    if items != [] {
      var n := |items| - 1;
      LineItemsTotal(items[..n]);
      assert LineItems(items)[..n] == LineItems(items[..n]);
    }
  }

  /** `purchaseData`: the owner is `user?.userId`. */
  datatype PurchaseRequest = PurchaseRequest(userId: Option<Id>, items: seq<PurchaseItem>, totalAmount: int)

  function PurchaseData(user: Option<UserSession>, items: seq<CartItem>): (r: PurchaseRequest)
    ensures r.userId.Some? <==> user.Some?
    ensures user.Some? ==> r.userId == Some(user.value.userId)
    ensures |r.items| == |items|
    ensures forall i :: 0 <= i < |items| ==>
              r.items[i].gameId == items[i].game.id && r.items[i].title == items[i].game.title &&
              r.items[i].price == items[i].game.price && r.items[i].quantity == items[i].quantity
    ensures r.totalAmount == TotalPrice(items) == LinesTotal(r.items)
  {
    LineItemsTotal(items);
    PurchaseRequest(if user.Some? then Some(user.value.userId) else None, LineItems(items), TotalPrice(items))
  }

  /** What the purchases route stores for this payload: a pending purchase
      whose total matches its own lines and the cart, and which the logged-in
      user's listing then shows. */
  lemma SubmittedOrderIsStored(purchases: seq<Purchase>, user: Option<UserSession>, items: seq<CartItem>, id: Id, now: int)
    ensures
      var request := PurchaseData(user, items);
      var stored := NewPurchase(PurchaseBody(request.userId, request.items, request.totalAmount, None), id, now);
      && stored.status == Pending
      && stored.totalAmount == LinesTotal(stored.items) == TotalPrice(items)
      && (user.Some? && user.value.userId != "" ==>
            stored in GetPurchases(purchases + [stored], Some(user.value.userId)).value)
  {
    var request := PurchaseData(user, items);
    var stored := NewPurchase(PurchaseBody(request.userId, request.items, request.totalAmount, None), id, now);
    if user.Some? && user.value.userId != "" {
      PostedPurchaseIsListed(purchases, PurchaseBody(request.userId, request.items, request.totalAmount, None), id, now, user.value.userId);
    }
  }

  /** The seven payment and billing fields of `formData`. */
  datatype PaymentDetails = PaymentDetails(
    cardNumber: string,
    expiryDate: string,
    cvv: string,
    cardName: string,
    billingAddress: string,
    city: string,
    zipCode: string)

  const EmptyDetails: PaymentDetails := PaymentDetails("", "", "", "", "", "", "")

  /** The form's state: `loading` and `formData`. */
  class CheckoutForm {
    var loading: bool
    var formData: PaymentDetails

    constructor ()
      ensures !loading && formData == EmptyDetails
      ensures formData.cardNumber == "" && formData.cvv == "" && formData.zipCode == ""
    {
      loading := false;
      formData := EmptyDetails;
    }

    /** An `onChange` on one input; the inputs are disabled while loading. */
    method Edit(details: PaymentDetails)
      requires !loading
      modifies this
      ensures formData == details && !loading
    {
      formData := details;
    }

    /** The first half of `handleSubmit`: `setLoading(true)` and the payload for
        `POST /api/purchases`. The submit button is disabled while loading. */
    method BeginSubmit(user: Option<UserSession>, items: seq<CartItem>) returns (request: PurchaseRequest)
      requires !loading
      modifies this
      ensures loading && formData == old(formData)
      ensures request == PurchaseData(user, items)
      ensures request.totalAmount == LinesTotal(request.items)
    {
      loading := true;
      request := PurchaseData(user, items);
    }

    /** The second half: the response (or the rejection) arrives, `onSuccess`
        runs only for an ok response (one without `ok` throws and, like a failed
        request, ends in the alert), and `finally` clears `loading` on every path. */
    method FinishSubmit(outcome: FetchOutcome) returns (success: bool)
      requires loading
      modifies this
      ensures !loading && formData == old(formData)
      ensures success <==> outcome == ResponseOk
    {
      success := outcome == ResponseOk;
      loading := false;
    }
  }
}
