/** The cart page (src/pages/Cart.js): the displayed item list and total,
    the quantity buttons, and what the page shows when the list is empty. */
module CartPage {
  import opened Common
  import opened Cart

  /** The quantity `handleQuantityChange` asks for, or `None` when the new
      quantity would drop below 1 and nothing is sent. */
  function RequestedQuantity(quantity: int, action: string): (r: Option<int>)
    ensures r.Some? ==> r.value >= 1
    ensures r.Some? ==> r.value == if action == "increment" then quantity + 1 else quantity - 1
    ensures action == "increment" ==> (r.Some? <==> quantity >= 0)
    ensures action != "increment" ==> (r.Some? <==> quantity >= 2)
  {
    var newQuantity := if action == "increment" then quantity + 1 else quantity - 1;
    if newQuantity < 1 then None else Some(newQuantity)
  }

  /** What a click on `+` or `-` led to. */
  datatype QuantityOutcome =
    | NotSent                 // the new quantity was below 1
    | Rejected                // the update request rejected: no alert, no reload
    | Alerted(alert: Alert)   // the update failed
    | Refetched               // the update succeeded and a reload was started

  /** What the page body holds below the heading. */
  datatype CartBody =
    | EmptyNotice             // "You have nothing in your shopping cart."
    | ItemsWithCheckout       // the items, the total and "Proceed to Checkout"

  /** `itemList.length === 0 ? … : …` and `itemList.length > 0 && …`. */
  function Body(itemList: seq<CartItemView>): (b: CartBody)
    ensures b == ItemsWithCheckout <==> |itemList| > 0
  {
    if |itemList| == 0 then EmptyNotice else ItemsWithCheckout
  }

  /** The total and the checkout button appear exactly when the cart the
      server returned has at least one line. */
  lemma CheckoutShownIffLines(details: seq<CartDetail>)
    ensures Body(DisplayCartItem(details).itemList) == ItemsWithCheckout <==> |details| > 0
  {
  }

  class CartView {
    var itemList: seq<CartItemView>
    var total: int

    constructor ()
      ensures itemList == [] && total == 0
    {
      itemList := [];
      total := 0;
    }

    /** `fetchCartItems`, given what `getCartDetails` resolved with, or
        `None` when it rejected: then `displayCartItem` rejects before either
        setter runs and the page keeps what it showed. */
    method FetchCartItems(details: Option<seq<CartDetail>>)
      modifies this
      ensures details.None? ==> unchanged(this)
      ensures details.Some? ==>
                itemList == DisplayCartItem(details.value).itemList
                && total == DisplayCartItem(details.value).total
    {
      if details.None? {
        return;
      }
      var display := DisplayCartItem(details.value);
      itemList := display.itemList;
      total := display.total;
    }

    /** `handleQuantityChange(item, action)`: the cart is asked for the new
        quantity only when it is at least 1. A rejected request rejects the
        handler with no alert and no reload; a failure reply is alerted; a
        success reply starts a reload of the list whose `getCartDetails`
        settles with `refreshed`. */
    method HandleQuantityChange(cart: CartStore, item: CartItemView, action: string,
                                reply: CartReply, refreshed: Option<seq<CartDetail>>)
      returns (outcome: QuantityOutcome)
      modifies this, cart
      ensures RequestedQuantity(item.quantity, action).None? ==>
                outcome == NotSent && unchanged(this) && unchanged(cart)
      ensures RequestedQuantity(item.quantity, action).Some? ==>
                var q := RequestedQuantity(item.quantity, action).value;
                cart.items == (if reply.Answered? && reply.response.success
                               then SetQuantity(old(cart.items), item.id, q) else old(cart.items))
                && cart.Valid()
      ensures RequestedQuantity(item.quantity, action).Some? && reply.Failed? ==>
                outcome == Rejected && unchanged(this)
      ensures RequestedQuantity(item.quantity, action).Some? && reply.Answered? && !reply.response.success ==>
                outcome == Alerted(Notice(reply.response.message, false)) && unchanged(this)
      ensures RequestedQuantity(item.quantity, action).Some? && reply.Answered? && reply.response.success ==>
                outcome == Refetched
                && (refreshed.None? ==> unchanged(this))
                && (refreshed.Some? ==>
                      itemList == DisplayCartItem(refreshed.value).itemList
                      && total == DisplayCartItem(refreshed.value).total)
    {
      var newQuantity := if action == "increment" then item.quantity + 1 else item.quantity - 1;
      if newQuantity < 1 {
        return NotSent;
      }
      var response := cart.UpdateCartItemQuantity(item.id, newQuantity, reply);
      if response.None? {
        return Rejected;
      }
      if !response.value.success {
        outcome := Alerted(Notice(response.value.message, response.value.success));
      } else {
        FetchCartItems(refreshed);
        outcome := Refetched;
      }
    }
  }
}
