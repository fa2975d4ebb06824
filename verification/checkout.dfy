/**
 * The storefront's checkout: the mobile-number rule, the guard sequence of
 * "Place order", the payload built from the cart, and how that payload fares
 * against the backend's order creation.
 */
module Checkout {
  import opened Wrappers
  import opened Text
  import Cart
  import opened Models
  import opened Api
  import OrdersController

  /** `/^[6-9]\d{9}$/`: ten ASCII digits, the first of them 6 to 9. */
  predicate MobilePattern(s: string) {
    |s| == 10 && '6' <= s[0] <= '9' && forall i :: 1 <= i < |s| ==> IsDigit(s[i])
  }

  /** validateMobile, as a left-to-right scan of the input. */
  method ValidateMobile(s: string) returns (ok: bool)
    ensures ok <==> MobilePattern(s)
  {
    if |s| != 10 || !('6' <= s[0] <= '9') {
      return false;
    }
    var i := 1;
    while i < |s|
      invariant 1 <= i <= |s|
      invariant forall k :: 1 <= k < i ==> IsDigit(s[k])
    {
      if !IsDigit(s[i]) {
        return false;
      }
      i := i + 1;
    }
    return true;
  }

  datatype CheckoutForm = CheckoutForm(customerName: string, email: string, mobileNumber: string, address: string)

  datatype PayloadLine = PayloadLine(productId: int, quantity: int, unitPrice: int)

  datatype Payload = Payload(
    customerName: string,
    email: string,
    mobileNumber: string,
    address: string,
    totalAmount: int,
    items: seq<PayloadLine>)

  datatype Blocker = MissingFields | InvalidMobile | EmptyCart

  /** What pressing "Place order" ends in: a guard stops it, or the request is sent and fails or succeeds. */
  datatype Outcome = Blocked(reason: Blocker) | Failed(sent: Payload) | Placed(sent: Payload)

  /** The outcome together with the cart left behind. */
  datatype Step = Step(outcome: Outcome, cart: seq<Cart.CartItem>)

  /** The order payload: one line per cart line, the cart total as the claimed amount. */
  function BuildPayload(form: CheckoutForm, cart: seq<Cart.CartItem>): (p: Payload)
    ensures |p.items| == |cart|
    ensures forall i :: 0 <= i < |cart| ==>
      p.items[i] == PayloadLine(cart[i].id, cart[i].quantity, cart[i].price)
    ensures p.totalAmount == Cart.Total(cart)
    ensures p.customerName == form.customerName && p.email == form.email
    ensures p.mobileNumber == form.mobileNumber && p.address == form.address
  {
    Payload(form.customerName, form.email, form.mobileNumber, form.address, Cart.Total(cart),
            seq(|cart|, i requires 0 <= i < |cart| => PayloadLine(cart[i].id, cart[i].quantity, cart[i].price)))
  }

  /**
   * handlePlaceOrder: an empty field stops first, then an invalid mobile
   * number, then an empty cart; otherwise the payload is sent, and `placed`
   * says whether the request succeeded. The cart is cleared only on success.
   */
  function PlaceOrder(form: CheckoutForm, cart: seq<Cart.CartItem>, placed: Payload -> bool): (r: Step)
    ensures (form.customerName == "" || form.email == "" || form.mobileNumber == "" || form.address == "") ==>
      r == Step(Blocked(MissingFields), cart)
    ensures (form.customerName != "" && form.email != "" && form.mobileNumber != "" && form.address != ""
             && !MobilePattern(form.mobileNumber)) ==> r == Step(Blocked(InvalidMobile), cart)
    ensures (form.customerName != "" && form.email != "" && MobilePattern(form.mobileNumber) && form.address != ""
             && cart == []) ==> r == Step(Blocked(EmptyCart), cart)
    ensures !r.outcome.Blocked? <==>
      form.customerName != "" && form.email != "" && MobilePattern(form.mobileNumber) && form.address != ""
      && cart != []
    ensures !r.outcome.Blocked? ==> r.outcome.sent == BuildPayload(form, cart)
    ensures r.outcome.Placed? <==> !r.outcome.Blocked? && placed(r.outcome.sent)
    ensures r.outcome.Placed? ==> r.cart == []
    ensures !r.outcome.Placed? ==> r.cart == cart
  {
    if form.customerName == "" || form.email == "" || form.mobileNumber == "" || form.address == "" then
      Step(Blocked(MissingFields), cart)
    else if !MobilePattern(form.mobileNumber) then
      Step(Blocked(InvalidMobile), cart)
    else if cart == [] then
      Step(Blocked(EmptyCart), cart)
    else
      var payload := BuildPayload(form, cart);
      if placed(payload) then Step(Placed(payload), []) else Step(Failed(payload), cart)
  }

  /** How the backend binds the payload: omitted fields take their defaults. */
  function ToRequest(p: Payload): (req: OrdersController.OrderRequest)
    ensures req.items.Some? && |req.items.value| == |p.items|
    ensures OrdersController.KeysLeftToDatabase(req)
    ensures forall i :: 0 <= i < |p.items| ==>
      req.items.value[i].productId == p.items[i].productId && req.items.value[i].quantity == p.items[i].quantity
  {
    OrdersController.OrderRequest(0, 0, Some(p.customerName), Some(p.email), Some(p.mobileNumber), Some(p.address),
      p.totalAmount, "", None,
      Some(seq(|p.items|, i requires 0 <= i < |p.items| =>
        OrdersController.LineRequest(0, p.items[i].productId, p.items[i].quantity, p.items[i].unitPrice))))
  }

  lemma {:induction false} LineTotalMatchesCart(items: seq<OrderItem>, cart: seq<Cart.CartItem>)
    requires |items| == |cart|
    requires forall i :: 0 <= i < |cart| ==> items[i].unitPrice == cart[i].price && items[i].quantity == cart[i].quantity
    ensures LineTotal(items) == Cart.Total(cart)
  {
    if cart != [] {
      LineTotalMatchesCart(items[1..], cart[1..]);
    }
  }

  /** The request for `cart` costs, at the catalog's prices, exactly the cart total the storefront shows. */
  lemma CatalogTotalIsCartTotal(form: CheckoutForm, cart: seq<Cart.CartItem>, products: map<int, Product>)
    requires forall i :: 0 <= i < |cart| ==> cart[i].id in products && products[cart[i].id].price == cart[i].price
    ensures var lines := ToRequest(BuildPayload(form, cart)).items.value;
      && (forall i :: 0 <= i < |lines| ==> lines[i].productId in products)
      && OrdersController.CatalogTotal(lines, products) == Cart.Total(cart)
  {
    var lines := ToRequest(BuildPayload(form, cart)).items.value;
    var p := OrdersController.PriceLines(lines, products, 0);
    OrdersController.PricedTotal(lines, p.items, products);
    LineTotalMatchesCart(p.items, cart);
  }

  /**
   * The request built from a priced cart passes every check of order
   * creation, line for line, exactly when the cart total fits the
   * `decimal(18,2)` total column; a larger total is the save's 500.
   */
  lemma CartOrderIsAccepted(form: CheckoutForm, cart: seq<Cart.CartItem>, db: Db, caller: Caller, newId: int, now: int)
    requires cart != []
    requires forall i :: 0 <= i < |cart| ==> cart[i].id in db.products && db.products[cart[i].id].price == cart[i].price
    requires caller.Authenticated? && !IsNullOrEmpty(caller.userId)
    requires newId !in db.orders
    ensures var r := OrdersController.Create(db, caller, ToRequest(BuildPayload(form, cart)), newId, now);
      && (r.response.Created? <==> FitsMoneyColumn(Cart.Total(cart)))
      && (!r.response.Created? ==> r.response == Fail(ServerError))
      && (r.response.Created? ==>
            && |r.response.value.items| == |cart|
            && forall i :: 0 <= i < |cart| ==>
                 r.response.value.items[i].unitPrice == cart[i].price
                 && r.response.value.items[i].quantity == cart[i].quantity)
  {
    CatalogTotalIsCartTotal(form, cart, db.products);
  }

  /**
   * When every cart line still names a catalog product at the price the cart
   * shows, an order the backend accepts stores the cart total; the client's
   * claimed total and prices are never what is stored, they only agree.
   */
  lemma StoredTotalIsCartTotal(form: CheckoutForm, cart: seq<Cart.CartItem>, db: Db, caller: Caller, newId: int, now: int)
    requires cart != []
    requires forall i :: 0 <= i < |cart| ==> cart[i].id in db.products && db.products[cart[i].id].price == cart[i].price
    requires caller.Authenticated? && !IsNullOrEmpty(caller.userId)
    requires newId !in db.orders
    ensures var r := OrdersController.Create(db, caller, ToRequest(BuildPayload(form, cart)), newId, now);
      && (r.response.Created? <==> FitsMoneyColumn(Cart.Total(cart)))
      && (r.response.Created? ==> r.response.value.totalAmount == Cart.Total(cart))
  {
    CartOrderIsAccepted(form, cart, db, caller, newId, now);
    CatalogTotalIsCartTotal(form, cart, db.products);
  }
}
