/** `AddToCart` (src/utility/cartUtility.js): the login gate in front of the
    cart's `addToCart`, and the alert that reports its reply. */
module CartUtility {
  import opened Common
  import opened Cart

  const LoginPrompt := "Please login to add items to your cart. You will be redirected to the login page shortly."
  const AddedMessage := "Item added to cart successfully!"

  /** The alert shown for a logged-out visitor: a failure shown for 4000 ms,
      after which the page moves to /login. */
  const LoginAlert := Alert(LoginPrompt, false, 4000, Some("/login"))

  /** The alert reporting the reply of `addToCart`. */
  function ReplyAlert(response: Response): (a: Alert)
    ensures a.isSuccess == response.success
    ensures a.message == if response.success then AddedMessage else response.message
    ensures a.duration == 4000 && a.redirect.None?
  {
    if !response.success then Notice(response.message, false) else Notice(AddedMessage, true)
  }

  /** `AddToCart(username, triggerAlert, navigate, addToCart, product)`: with
      no user (`null` or `undefined`) the cart is left alone and the login
      alert is shown; otherwise the cart adds the product once and its reply
      is reported. When the request rejects, so does this function, and no
      alert is shown (`None`). */
  method AddToCartGate(username: Option<User>, cart: CartStore, productId: int, reply: CartReply)
    returns (alert: Option<Alert>)
    modifies cart
    ensures username.None? ==> alert == Some(LoginAlert) && unchanged(cart)
    ensures username.Some? && reply.Failed? ==> alert.None? && cart.items == old(cart.items) && cart.Valid()
    ensures username.Some? && reply.Answered? ==>
              alert == Some(ReplyAlert(reply.response))
              && cart.items == (if reply.response.success then AddLine(old(cart.items), productId) else old(cart.items))
              && cart.Valid()
  {
    if username.None? {
      return Some(LoginAlert);
    }
    var response := cart.AddToCart(productId, reply);
    if response.None? {
      return None;
    }
    if !response.value.success {
      alert := Some(Notice(response.value.message, false));
    } else {
      alert := Some(Notice(AddedMessage, true));
    }
  }
}
