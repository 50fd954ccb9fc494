/** `useCart` (src/hooks/useCart.js): the shopping cart held by the user
    context. The state is the list of `{ product_id, quantity }` lines plus the
    notification count that an effect derives from it; every server call is
    reduced to the reply it resolves with, passed in as a parameter. */
module Cart {
  import opened Common

  /** One entry of `cartItems`. */
  datatype CartLine = CartLine(productId: int, quantity: int)

  /** Index of the first line for `productId`, the one `Array.prototype.find`
      returns, or `None` when no line has that id. */
  function IndexOf(items: seq<CartLine>, productId: int): (r: Option<nat>)
    ensures r.Some? ==> r.value < |items| && items[r.value].productId == productId
    ensures r.Some? ==> forall j :: 0 <= j < r.value ==> items[j].productId != productId
    ensures r.None? <==> forall j :: 0 <= j < |items| ==> items[j].productId != productId
  {
    if items == [] then None
    else if items[0].productId == productId then Some(0)
    else
      var rest := IndexOf(items[1..], productId);
      assert forall j :: 1 <= j < |items| ==> items[j] == items[1..][j - 1];
      match rest
      case Some(k) => Some(k + 1)
      case None => None
  }

  /** The lines after a successful `addToCart`: the first line for the product
      gains one unit, or a new line of quantity 1 is appended. */
  function AddLine(items: seq<CartLine>, productId: int): (r: seq<CartLine>)
    ensures |r| == if IndexOf(items, productId).Some? then |items| else |items| + 1
    ensures IndexOf(r, productId).Some?
  {
    match IndexOf(items, productId)
    case Some(k) =>
      var r := items[k := items[k].(quantity := items[k].quantity + 1)];
      assert r[k].productId == productId;
      r
    case None =>
      var r := items + [CartLine(productId, 1)];
      assert r[|items|].productId == productId;
      r
  }

  /** `prevItems.filter((item) => item.product_id !== productId)`. */
  function RemoveLines(items: seq<CartLine>, productId: int): (r: seq<CartLine>)
    ensures |r| <= |items|
    ensures forall i :: 0 <= i < |r| ==> r[i].productId != productId
  {
    if items == [] then []
    else if items[0].productId == productId then RemoveLines(items[1..], productId)
    else [items[0]] + RemoveLines(items[1..], productId)
  }

  /** The lines after a successful `updateCartItemQuantity`: the first line for
      the product takes the new quantity; with no such line nothing changes. */
  function SetQuantity(items: seq<CartLine>, productId: int, quantity: int): (r: seq<CartLine>)
    ensures |r| == |items|
    ensures forall i :: 0 <= i < |r| ==> r[i].productId == items[i].productId
  {
    match IndexOf(items, productId)
    case Some(k) => items[k := items[k].(quantity := quantity)]
    case None => items
  }

  /** No product appears on two lines. */
  predicate Distinct(items: seq<CartLine>) {
    forall i, j :: 0 <= i < j < |items| ==> items[i].productId != items[j].productId
  }

  /** Every line asks for at least one unit. */
  predicate PositiveQuantities(items: seq<CartLine>) {
    forall i :: 0 <= i < |items| ==> items[i].quantity >= 1
  }

  function ProductIds(items: seq<CartLine>): set<int> {
    set i | 0 <= i < |items| :: items[i].productId
  }

  /** `calculateCartNotificationCount`: one per line. */
  function NotificationCount(items: seq<CartLine>): nat
  {
    |items|
  }

  class CartStore {
    /** `cartID`; the empty string stands for every falsy id. */
    const cartId: string
    var items: seq<CartLine>
    var notificationCount: nat

    /** The count effect has caught up with the lines. */
    predicate Valid()
      reads this
    {
      notificationCount == NotificationCount(items)
    }

    constructor (cartId: string)
      ensures this.cartId == cartId
      ensures items == [] && notificationCount == 0
      ensures Valid()
    {
      this.cartId := cartId;
      items := [];
      notificationCount := 0;
    }

    /** The count effect, run after every change of the lines. */
    method SyncCount()
      modifies this
      ensures items == old(items) && Valid()
    {
      notificationCount := NotificationCount(items);
    }

    /** `fetchItems`: with a truthy `cartID`, the fetched list replaces the
        lines; a failed fetch (`None`) is only logged. */
    method FetchItems(fetched: Option<seq<CartLine>>)
      modifies this
      ensures items == if cartId != "" && fetched.Some? then fetched.value else old(items)
      ensures Valid()
    {
      if cartId != "" {
        if fetched.Some? {
          items := fetched.value;
        }
      }
      SyncCount();
    }

    /** The search `find` performs over the lines. */
    method Find(productId: int) returns (k: Option<nat>)
      ensures k == IndexOf(items, productId)
    {
      var i := 0;
      while i < |items| && items[i].productId != productId
        invariant 0 <= i <= |items|
        invariant forall j :: 0 <= j < i ==> items[j].productId != productId
      {
        i := i + 1;
      }
      if i < |items| {
        k := Some(i);
      } else {
        k := None;
      }
    }

    /** `addToCart(item)`: asks the server for one more unit and mirrors a
        successful reply locally; the reply is handed back as it came. A
        rejected request rejects `addToCart` (`None`) before the lines are
        touched. */
    method AddToCart(productId: int, reply: CartReply) returns (response: Option<Response>)
      modifies this
      ensures reply.Failed? ==> response.None? && items == old(items)
      ensures reply.Answered? ==>
                response == Some(reply.response)
                && items == if reply.response.success then AddLine(old(items), productId) else old(items)
      ensures Valid()
    {
      if reply.Failed? {
        SyncCount();
        return None;
      }
      if reply.response.success {
        var k := Find(productId);
        if k.Some? {
          var i := k.value;
          items := items[i := items[i].(quantity := items[i].quantity + 1)];
        } else {
          items := items + [CartLine(productId, 1)];
        }
      }
      SyncCount();
      response := Some(reply.response);
    }

    /** `removeFromCart(productId)`: drops every line for the product once the
        request resolves, whatever the server answered; when the request
        rejects (`requestFails`) the filter is never reached and the lines
        stay. */
    method RemoveFromCart(productId: int, requestFails: bool)
      modifies this
      ensures items == if requestFails then old(items) else RemoveLines(old(items), productId)
      ensures Valid()
    {
      if !requestFails {
        items := RemoveLines(items, productId);
      }
      SyncCount();
    }

    /** `updateCartItemQuantity(product_id, quantity)`; a rejected request
        rejects the call (`None`) and leaves the lines. */
    method UpdateCartItemQuantity(productId: int, quantity: int, reply: CartReply) returns (response: Option<Response>)
      modifies this
      ensures reply.Failed? ==> response.None? && items == old(items)
      ensures reply.Answered? ==>
                response == Some(reply.response)
                && items == if reply.response.success then SetQuantity(old(items), productId, quantity) else old(items)
      ensures Valid()
    {
      if reply.Failed? {
        SyncCount();
        return None;
      }
      if reply.response.success {
        var k := Find(productId);
        if k.Some? {
          var i := k.value;
          items := items[i := items[i].(quantity := quantity)];
        }
      }
      SyncCount();
      response := Some(reply.response);
    }

    /** `cartSubmit`: a successful order empties the cart; a rejected
        request rejects the call (`None`) and leaves the lines. */
    method CartSubmit(reply: CartReply) returns (response: Option<Response>)
      modifies this
      ensures reply.Failed? ==> response.None? && items == old(items)
      ensures reply.Answered? ==>
                response == Some(reply.response)
                && items == if reply.response.success then [] else old(items)
      ensures Valid()
    {
      if reply.Failed? {
        SyncCount();
        return None;
      }
      if reply.response.success {
        items := [];
      }
      SyncCount();
      response := Some(reply.response);
    }

    /** `clearCartItems`. */
    method ClearCartItems()
      modifies this
      ensures items == [] && notificationCount == 0
      ensures Valid()
    {
      notificationCount := 0;
      items := [];
    }
  }

  // ---------------------------------------------------------------------------
  // What the line operations do

  /** Adding a product that is already in the cart adds one unit to its first
      line and changes no other line. */
  lemma AddToExisting(items: seq<CartLine>, productId: int, k: nat)
    requires k < |items| && items[k].productId == productId
    requires forall j :: 0 <= j < k ==> items[j].productId != productId
    ensures |AddLine(items, productId)| == |items|
    ensures AddLine(items, productId)[k] == CartLine(productId, items[k].quantity + 1)
    ensures forall j :: 0 <= j < |items| && j != k ==> AddLine(items, productId)[j] == items[j]
  {
    assert IndexOf(items, productId) == Some(k);
  }

  /** Adding a product that is not in the cart appends `{ productId, 1 }`. */
  lemma AddNew(items: seq<CartLine>, productId: int)
    requires productId !in ProductIds(items)
    ensures AddLine(items, productId) == items + [CartLine(productId, 1)]
  {
    forall j | 0 <= j < |items| ensures items[j].productId != productId {
      assert items[j].productId in ProductIds(items);
    }
  }

  lemma AddIds(items: seq<CartLine>, productId: int)
    ensures ProductIds(AddLine(items, productId)) == ProductIds(items) + {productId}
  {
    var r := AddLine(items, productId);
    match IndexOf(items, productId)
    case Some(k) =>
      forall x | x in ProductIds(items) ensures x in ProductIds(r) {
        var i :| 0 <= i < |items| && items[i].productId == x;
        assert r[i].productId == x;
      }
      forall x | x in ProductIds(r) ensures x in ProductIds(items) {
        var i :| 0 <= i < |r| && r[i].productId == x;
        assert items[i].productId == x;
      }
    case None =>
      forall x | x in ProductIds(items) ensures x in ProductIds(r) {
        var i :| 0 <= i < |items| && items[i].productId == x;
        assert r[i].productId == x;
      }
      assert r[|items|].productId == productId;
  }

  /** Adding keeps product ids distinct. */
  lemma AddPreservesDistinct(items: seq<CartLine>, productId: int)
    requires Distinct(items)
    ensures Distinct(AddLine(items, productId))
  {
    match IndexOf(items, productId)
    case Some(k) =>
    case None =>
      var r := AddLine(items, productId);
      forall i, j | 0 <= i < j < |r| ensures r[i].productId != r[j].productId {
        if j == |items| { assert r[i] == items[i]; }
      }
  }

  /** Adding never lowers a quantity below 1. */
  lemma AddPreservesPositive(items: seq<CartLine>, productId: int)
    requires PositiveQuantities(items)
    ensures PositiveQuantities(AddLine(items, productId))
  {
  }

  /** Removing keeps exactly the lines of the other products. */
  lemma {:induction false} RemoveKeepsOthers(items: seq<CartLine>, productId: int)
    ensures forall l :: l in RemoveLines(items, productId) <==> l in items && l.productId != productId
  {
    if items != [] {
      RemoveKeepsOthers(items[1..], productId);
      assert items == [items[0]] + items[1..];
    }
  }

  /** Removing works line by line, so the kept lines stay in their order. */
  lemma {:induction false} RemoveDistributes(a: seq<CartLine>, b: seq<CartLine>, productId: int)
    ensures RemoveLines(a + b, productId) == RemoveLines(a, productId) + RemoveLines(b, productId)
  {
    if a != [] {
      assert (a + b)[1..] == a[1..] + b;
      RemoveDistributes(a[1..], b, productId);
    } else {
      assert a + b == b;
    }
  }

  /** Removing a product that has no line changes nothing. */
  lemma {:induction false} RemoveAbsent(items: seq<CartLine>, productId: int)
    requires productId !in ProductIds(items)
    ensures RemoveLines(items, productId) == items
  {
    if items != [] {
      assert items[0].productId in ProductIds(items);
      assert ProductIds(items[1..]) <= ProductIds(items) by {
        forall x | x in ProductIds(items[1..]) ensures x in ProductIds(items) {
          var i :| 0 <= i < |items[1..]| && items[1..][i].productId == x;
          assert items[i + 1].productId == x;
        }
      }
      RemoveAbsent(items[1..], productId);
    }
  }

  lemma RemovePreservesDistinct(items: seq<CartLine>, productId: int)
    requires Distinct(items)
    ensures Distinct(RemoveLines(items, productId))
  {
    RemoveDistinctAux(items, productId);
  }

  /** Removing keeps the lines it keeps, so every id of the result is an id
      of a later position of the input. */
  lemma {:induction false} RemoveDistinctAux(items: seq<CartLine>, productId: int)
    requires Distinct(items)
    ensures Distinct(RemoveLines(items, productId))
    ensures ProductIds(RemoveLines(items, productId)) <= ProductIds(items)
  {
    if items != [] {
      var t := items[1..];
      assert Distinct(t) by {
        forall i, j | 0 <= i < j < |t| ensures t[i].productId != t[j].productId {
          assert t[i] == items[i + 1] && t[j] == items[j + 1];
        }
      }
      RemoveDistinctAux(t, productId);
      assert ProductIds(t) <= ProductIds(items) by {
        forall x | x in ProductIds(t) ensures x in ProductIds(items) {
          var i :| 0 <= i < |t| && t[i].productId == x;
          assert items[i + 1].productId == x;
        }
      }
      if items[0].productId != productId {
        var rt := RemoveLines(t, productId);
        var r := [items[0]] + rt;
        assert items[0].productId !in ProductIds(t) by {
          forall i | 0 <= i < |t| ensures t[i].productId != items[0].productId {
            assert t[i] == items[i + 1];
          }
        }
        forall i, j | 0 <= i < j < |r| ensures r[i].productId != r[j].productId {
          if i == 0 {
            assert r[j] == rt[j - 1];
            assert rt[j - 1].productId in ProductIds(rt);
          } else {
            assert r[i] == rt[i - 1] && r[j] == rt[j - 1];
          }
        }
        assert ProductIds(r) <= ProductIds(items) by {
          forall x | x in ProductIds(r) ensures x in ProductIds(items) {
            var i :| 0 <= i < |r| && r[i].productId == x;
            if i > 0 { assert rt[i - 1].productId == x; assert x in ProductIds(rt); }
          }
        }
      }
    }
  }

  /** A quantity update on a product in the cart sets its first line's
      quantity and touches nothing else. */
  lemma SetOnExisting(items: seq<CartLine>, productId: int, quantity: int, k: nat)
    requires k < |items| && items[k].productId == productId
    requires forall j :: 0 <= j < k ==> items[j].productId != productId
    ensures |SetQuantity(items, productId, quantity)| == |items|
    ensures SetQuantity(items, productId, quantity)[k] == CartLine(productId, quantity)
    ensures forall j :: 0 <= j < |items| && j != k ==> SetQuantity(items, productId, quantity)[j] == items[j]
  {
    assert IndexOf(items, productId) == Some(k);
  }

  /** A quantity update never adds a line: with no line for the product the
      lines stay as they were. */
  lemma SetOnAbsent(items: seq<CartLine>, productId: int, quantity: int)
    requires productId !in ProductIds(items)
    ensures SetQuantity(items, productId, quantity) == items
  {
    forall j | 0 <= j < |items| ensures items[j].productId != productId {
      assert items[j].productId in ProductIds(items);
    }
  }

  /** A quantity update keeps the products, hence their distinctness, and
      keeps quantities positive when the new one is. */
  lemma SetPreserves(items: seq<CartLine>, productId: int, quantity: int)
    ensures Distinct(items) ==> Distinct(SetQuantity(items, productId, quantity))
    ensures PositiveQuantities(items) && quantity >= 1
            ==> PositiveQuantities(SetQuantity(items, productId, quantity))
  {
  }

  /** With distinct product ids the notification count is the number of
      different products in the cart. */
  lemma {:induction false} CountIsDistinctProducts(items: seq<CartLine>)
    requires Distinct(items)
    ensures NotificationCount(items) == |ProductIds(items)|
  {
    if items != [] {
      var t := items[1..];
      assert Distinct(t) by {
        forall i, j | 0 <= i < j < |t| ensures t[i].productId != t[j].productId {
          assert t[i] == items[i + 1] && t[j] == items[j + 1];
        }
      }
      CountIsDistinctProducts(t);
      assert ProductIds(items) == {items[0].productId} + ProductIds(t) by {
        forall x | x in ProductIds(items) ensures x in {items[0].productId} + ProductIds(t) {
          var i :| 0 <= i < |items| && items[i].productId == x;
          if i > 0 { assert t[i - 1].productId == x; }
        }
        forall x | x in ProductIds(t) ensures x in ProductIds(items) {
          var i :| 0 <= i < |t| && t[i].productId == x;
          assert items[i + 1].productId == x;
        }
      }
      assert items[0].productId !in ProductIds(t) by {
        forall i | 0 <= i < |t| ensures t[i].productId != items[0].productId {
          assert t[i] == items[i + 1];
        }
      }
    }
  }

  // ---------------------------------------------------------------------------
  // displayCartItem

  /** The product record nested in a cart detail; prices are in cents. */
  datatype Product = Product(productId: int, productName: string, price: int, imageUrl: string)

  /** One element of what `getCartDetails` returns. */
  datatype CartDetail = CartDetail(product: Product, quantity: int)

  /** One element of `itemList`. */
  datatype CartItemView = CartItemView(id: int, name: string, price: int, quantity: int,
                                       imageUrl: string, totalPrice: int)

  datatype CartDisplay = CartDisplay(itemList: seq<CartItemView>, total: int)

  /** The `map` callback of `displayCartItem`. */
  function ItemView(d: CartDetail): CartItemView
  {
    CartItemView(d.product.productId, d.product.productName, d.product.price, d.quantity,
                 d.product.imageUrl, d.product.price * d.quantity)
  }

  function ItemViews(details: seq<CartDetail>): (r: seq<CartItemView>)
    ensures |r| == |details|
    ensures forall i :: 0 <= i < |details| ==> r[i] == ItemView(details[i])
  {
    if details == [] then [] else [ItemView(details[0])] + ItemViews(details[1..])
  }

  /** `reduce((acc, item) => acc + item.totalPrice, acc)` over `items`. */
  function FoldTotal(acc: int, items: seq<CartItemView>): int
    decreases items
  {
    if items == [] then acc else FoldTotal(acc + items[0].totalPrice, items[1..])
  }

  /** `displayCartItem`, given what `getCartDetails` returned. */
  function DisplayCartItem(details: seq<CartDetail>): (r: CartDisplay)
    ensures |r.itemList| == |details|
  {
    var result := ItemViews(details);
    CartDisplay(result, FoldTotal(0, result))
  }

  /** Price times quantity, summed over the details (the reference total). */
  function Amount(details: seq<CartDetail>): int
  {
    if details == [] then 0
    else Amount(details[..|details| - 1])
         + details[|details| - 1].product.price * details[|details| - 1].quantity
  }

  lemma {:induction false} FoldTotalSplits(acc: int, a: seq<CartItemView>, b: seq<CartItemView>)
    ensures FoldTotal(acc, a + b) == FoldTotal(FoldTotal(acc, a), b)
    decreases a
  {
    if a != [] {
      assert (a + b)[1..] == a[1..] + b;
      FoldTotalSplits(acc + a[0].totalPrice, a[1..], b);
    } else {
      assert a + b == b;
    }
  }

  lemma {:induction false} ItemViewsSplit(a: seq<CartDetail>, b: seq<CartDetail>)
    ensures ItemViews(a + b) == ItemViews(a) + ItemViews(b)
  {
  }

  /** Each line's `totalPrice` is its price times its quantity, and `total`
      is the sum of price times quantity over all lines. */
  lemma {:induction false} DisplayTotals(details: seq<CartDetail>)
    ensures |DisplayCartItem(details).itemList| == |details|
    ensures forall i :: 0 <= i < |details| ==>
              DisplayCartItem(details).itemList[i].totalPrice
              == details[i].product.price * details[i].quantity
    ensures DisplayCartItem(details).total == Amount(details)
  {
    if details != [] {
      var init := details[..|details| - 1];
      var last := details[|details| - 1];
      assert details == init + [last];
      DisplayTotals(init);
      ItemViewsSplit(init, [last]);
      FoldTotalSplits(0, ItemViews(init), ItemViews([last]));
    }
  }

  /** The total of two carts displayed together is the sum of their totals. */
  lemma DisplayTotalAdds(a: seq<CartDetail>, b: seq<CartDetail>)
    ensures DisplayCartItem(a + b).total == DisplayCartItem(a).total + DisplayCartItem(b).total
  {
    ItemViewsSplit(a, b);
    FoldTotalSplits(0, ItemViews(a), ItemViews(b));
    FoldFromAcc(FoldTotal(0, ItemViews(a)), ItemViews(b));
  }

  lemma {:induction false} FoldFromAcc(acc: int, items: seq<CartItemView>)
    ensures FoldTotal(acc, items) == acc + FoldTotal(0, items)
    decreases items
  {
    if items != [] {
      FoldFromAcc(acc + items[0].totalPrice, items[1..]);
      FoldFromAcc(items[0].totalPrice, items[1..]);
    }
  }
}
