/**
 * The checkout page: the form's initial state, the order request built from
 * the cart, the empty-cart guard, and what a submit does for each payment
 * method and each outcome of the two requests involved.
 */
module Checkout {
  import opened Wrappers
  import opened Http
  import opened Toasts
  import opened Cart
  import opened Pricing
  import Catalog

  datatype ShippingInfo = ShippingInfo(location: string, countryCode: string, phoneNumber: string)

  datatype GuestInfo = GuestInfo(guestName: string, guestEmail: string)

  /** One entry of `orderItems`: the variant id, the quantity and the unit price. */
  datatype OrderItem = OrderItem(variantId: int, quantity: int, price: real)

  /** The checkout request: the shipping and guest fields spread in, the
      total, the payment method and the items. */
  datatype OrderRequest = OrderRequest(
    location: string,
    countryCode: string,
    phoneNumber: string,
    guestName: string,
    guestEmail: string,
    totalPrice: real,
    paymentMethod: string,
    orderItems: seq<OrderItem>)

  const InitialShipping := ShippingInfo("", "+20", "")
  const InitialGuest := GuestInfo("", "")
  const InitialPaymentMethod := "PAYMOB"

  /** One order item per cart line, in cart order, with id, quantity and
      price carried over unchanged. */
  function OrderItems(lines: seq<CartLine>): (items: seq<OrderItem>)
    ensures |items| == |lines|
    ensures forall i :: 0 <= i < |lines| ==>
      items[i].variantId == lines[i].variant.id && items[i].quantity == lines[i].quantity && items[i].price == lines[i].variant.price
  {
    seq(|lines|, i requires 0 <= i < |lines| => OrderItem(lines[i].variant.id, lines[i].quantity, lines[i].variant.price))
  }

  /** `orderRequest` as the submit handler builds it. The guest fields are
      sent whoever is signed in, and the total is the undiscounted subtotal. */
  function BuildOrderRequest(cart: CartState, shipping: ShippingInfo, guest: GuestInfo, paymentMethod: string): (r: OrderRequest)
    ensures r.location == shipping.location && r.countryCode == shipping.countryCode && r.phoneNumber == shipping.phoneNumber
    ensures r.guestName == guest.guestName && r.guestEmail == guest.guestEmail
    ensures r.paymentMethod == paymentMethod
    ensures r.totalPrice == Subtotal(cart.lines)
    ensures r.orderItems == OrderItems(cart.lines)
  {
    OrderRequest(
      shipping.location, shipping.countryCode, shipping.phoneNumber,
      guest.guestName, guest.guestEmail,
      Subtotal(cart.lines), paymentMethod, OrderItems(cart.lines))
  }

  /** What the items of a request add up to, read off the items alone. */
  function ItemsTotal(items: seq<OrderItem>): real {
    if items == [] then 0.0 else items[0].price * items[0].quantity as real + ItemsTotal(items[1..])
  }

  /** The request's total agrees with its own items. */
  lemma {:induction false} ItemsTotalIsSubtotal(lines: seq<CartLine>)
    ensures ItemsTotal(OrderItems(lines)) == Subtotal(lines)
  {
    if lines != [] {
      assert OrderItems(lines)[1..] == OrderItems(lines[1..]);
      ItemsTotalIsSubtotal(lines[1..]);
    }
  }

  /** The applied coupon plays no part in the order request. */
  lemma RequestIgnoresCoupon(cart: CartState, c: Option<Coupon>, shipping: ShippingInfo, guest: GuestInfo, pay: string)
    ensures BuildOrderRequest(cart.(coupon := c), shipping, guest, pay) == BuildOrderRequest(cart, shipping, guest, pay)
    ensures BuildOrderRequest(cart, shipping, guest, pay).totalPrice == Total(cart.(coupon := None))
  {
  }

  /** What the page shows: for an empty cart only a spinner, with an error
      toast and a redirect to the cart; otherwise the form, whose guest
      section is there only for a visitor who is not signed in. */
  datatype CheckoutView =
    | RedirectToCart(toast: Toast, path: string)
    | Form(guestFields: bool)

  function View(cart: CartState, signedIn: bool): (v: CheckoutView)
    ensures v.RedirectToCart? <==> cart.lines == []
    ensures v.RedirectToCart? ==> v.path == "/cart" && v.toast.ErrorToast?
    ensures v.Form? ==> (v.guestFields <==> !signedIn)
  {
    if cart.lines == [] then RedirectToCart(ErrorToast("Your cart is empty. Redirecting..."), "/cart")
    else Form(!signedIn)
  }

  /** Where the browser goes after a submit. */
  datatype Navigation = Stay | Navigate(path: string) | ExternalRedirect(url: string)

  /** The state after a submit: the cart, the loading flag, the toast shown
      (if any), the order id a payment was initiated for (if any) and the
      navigation. */
  datatype SubmitOutcome = SubmitOutcome(
    cart: CartState,
    isLoading: bool,
    toast: Option<Toast>,
    paymentFor: Option<int>,
    nav: Navigation)

  /** The PayMob iframe URL for a payment key. */
  function PaymobUrl(iframeId: string, paymentKey: string): string {
    "https://accept.paymob.com/api/acceptance/iframes/" + iframeId + "?payment_token=" + paymentKey
  }

  const CheckoutFallback := "An error occurred during checkout."

  /** The submit handler. `placed` is the checkout endpoint's answer (the new
      order's id); `initiated` is the payment endpoint's answer (the payment
      key), consulted only for PAYMOB after the order was placed. */
  function Submit(cart: CartState, pay: string, iframeId: string, placed: Response<int>, initiated: Response<string>): (o: SubmitOutcome)
    ensures o.cart == cart || o.cart == EmptyCart
    ensures placed.Err? ==> o == SubmitOutcome(cart, false, Some(ErrorToast(ErrorText(placed, CheckoutFallback))), None, Stay)
    ensures placed.Ok? && pay == "PAYMOB" ==> o.paymentFor == Some(placed.data) && o.cart == cart
    ensures placed.Ok? && pay == "PAYMOB" && initiated.Ok? ==>
      o.nav == ExternalRedirect(PaymobUrl(iframeId, initiated.data)) && o.isLoading && o.toast.None?
    ensures placed.Ok? && pay == "PAYMOB" && initiated.Err? ==>
      !o.isLoading && o.nav == Stay && o.toast == Some(ErrorToast(ErrorText(initiated, CheckoutFallback)))
    ensures placed.Ok? && pay != "PAYMOB" ==>
      o == SubmitOutcome(EmptyCart, true, Some(SuccessToast("Order placed successfully!")), None, Navigate("/order/payment-success"))
  {
    match placed
    case Err(_, _) => SubmitOutcome(cart, false, Some(ErrorToast(ErrorText(placed, CheckoutFallback))), None, Stay)
    case Ok(orderId) =>
      if pay == "PAYMOB" then
        match initiated
        case Ok(key) => SubmitOutcome(cart, true, None, Some(orderId), ExternalRedirect(PaymobUrl(iframeId, key)))
        case Err(_, _) => SubmitOutcome(cart, false, Some(ErrorToast(ErrorText(initiated, CheckoutFallback))), Some(orderId), Stay)
      else
        SubmitOutcome(Clear(cart), true, Some(SuccessToast("Order placed successfully!")), None, Navigate("/order/payment-success"))
  }

  /** The cart is emptied, and the coupon dropped, exactly when the order was
      placed with cash on delivery. */
  lemma SubmitClearsOnlyCashOnDelivery(cart: CartState, pay: string, iframeId: string, placed: Response<int>, initiated: Response<string>)
    requires cart != EmptyCart
    ensures Submit(cart, pay, iframeId, placed, initiated).cart == EmptyCart <==> placed.Ok? && pay != "PAYMOB"
  {
  }

  /** A submit that ends on the page always leaves it usable again. */
  lemma StayingResetsLoading(cart: CartState, pay: string, iframeId: string, placed: Response<int>, initiated: Response<string>)
    ensures Submit(cart, pay, iframeId, placed, initiated).nav == Stay <==> !Submit(cart, pay, iframeId, placed, initiated).isLoading
  {
  }

  /** The form shows exactly when the order it would submit has items:
      emptying the cart sends the visitor back to it, and adding any
      variant brings the form, with guest fields for visitors only. */
  lemma ViewFollowsCart(cart: CartState, signedIn: bool, shipping: ShippingInfo, guest: GuestInfo, pay: string,
                        v: Catalog.Variant, p: Catalog.Product)
    ensures View(cart, signedIn).Form? <==> BuildOrderRequest(cart, shipping, guest, pay).orderItems != []
    ensures View(Clear(cart), signedIn).RedirectToCart?
    ensures View(Add(cart, v, p), signedIn) == Form(!signedIn)
  {
    var r := BuildOrderRequest(cart, shipping, guest, pay);
    assert |r.orderItems| == |cart.lines|;
    var added := Add(cart, v, p);
    assert Contains(added.lines, v.id);
  }
}
