/** The client's checkout screen: the price breakdown it shows, the fields
    it insists on before payment, the amount it hands the payment gateway
    and what a completed payment does to the cart. */
module Checkout {
  import Cart
  import Orders

  /** The client's own flat delivery charge below the free-delivery line. */
  const CLIENT_DELIVERY_FEE: int := 49

  datatype Breakdown = Breakdown(subtotal: int, deliveryFee: int, tax: real, total: real)

  /** The breakdown shown for a cart: free delivery strictly above 500,
      otherwise 49; 5% tax; the total of the three. */
  function Price(items: Cart.Items): (b: Breakdown)
    ensures b.subtotal == Cart.Total(items)
    ensures b.deliveryFee == 0 <==> b.subtotal > Orders.FREE_DELIVERY_ABOVE
    ensures b.deliveryFee == 0 || b.deliveryFee == CLIENT_DELIVERY_FEE
    ensures 20.0 * b.tax == b.subtotal as real
    ensures b.total == b.subtotal as real + b.deliveryFee as real + b.tax
  {
    var subtotal := Cart.Total(items);
    var fee := if subtotal > 500 then 0 else 49;
    var tax := subtotal as real * 0.05;
    Breakdown(subtotal, fee, tax, subtotal as real + fee as real + tax)
  }

  /** For the same goods the checkout screen asks one rupee less than the
      server's order totals whenever delivery is charged, and the same when
      it is free: the server charges 50, this screen 49. */
  lemma {:induction false} ClientFeeDiffersFromServer(items: Cart.Items, lines: seq<Orders.OrderLine>)
    requires Orders.Subtotal(lines) == Cart.Total(items)
    ensures Price(items).subtotal == Orders.ComputeTotals(lines).subtotal
    ensures Price(items).tax == Orders.ComputeTotals(lines).tax
    ensures Price(items).total ==
              Orders.ComputeTotals(lines).total - if Cart.Total(items) > 500 then 0.0 else 1.0
  {
  }

  /** Crossing the free-delivery line lowers the total: a cart worth 501
      costs less than one worth 500. */
  lemma {:induction false} BiggerCartCostsLess(small: Cart.Items, big: Cart.Items)
    requires Cart.Total(small) == 500 && Cart.Total(big) == 501
    ensures Price(small).total == 574.0
    ensures Price(big).total == 526.05
    ensures Price(big).total < Price(small).total
  {
  }

  /** The gateway takes the total in paise. */
  function GatewayAmount(b: Breakdown): (paise: real)
    ensures paise / 100.0 == b.total
  {
    b.total * 100.0
  }

  /** The form; it opens with the signed-in user's name, email and phone
      (or empty strings) and an empty address. */
  datatype Form = Form(
    name: string,
    email: string,
    phone: string,
    street: string,
    city: string,
    state: string,
    zipCode: string,
    deliveryInstructions: string)

  function Prefill(name: string, email: string, phone: string): Form
  {
    Form(name, email, phone, "", "", "", "", "")
  }

  /** Every field but the delivery instructions is required. */
  predicate RequiredFilled(f: Form)
  {
    && |f.name| > 0 && |f.email| > 0 && |f.phone| > 0
    && |f.street| > 0 && |f.city| > 0 && |f.state| > 0 && |f.zipCode| > 0
  }

  /** A prefilled form is never enough on its own: the address is empty. */
  lemma {:induction false} PrefillNeedsAddress(name: string, email: string, phone: string)
    ensures !RequiredFilled(Prefill(name, email, phone))
  {
  }

  /** What pressing "pay" leads to: an alert about missing fields, an alert
      that the gateway script did not load, or the gateway opened for an
      amount with the customer's details. */
  datatype PayStep =
    | MissingFields
    | GatewayUnavailable
    | OpenGateway(amount: real, name: string, email: string, contact: string)

  /** `handlePayment`, with whether the gateway script loaded as a
      parameter. */
  function Pay(f: Form, items: Cart.Items, scriptLoaded: bool): (r: PayStep)
    ensures r.MissingFields? <==> !RequiredFilled(f)
    ensures r.OpenGateway? <==> RequiredFilled(f) && scriptLoaded
    ensures r.OpenGateway? ==>
              && r.amount == 100.0 * Price(items).total
              && r.name == f.name && r.email == f.email && r.contact == f.phone
  {
    if !RequiredFilled(f) then MissingFields
    else if !scriptLoaded then GatewayUnavailable
    else OpenGateway(GatewayAmount(Price(items)), f.name, f.email, f.phone)
  }

  /** Leaving any one required field empty stops the payment, whatever
      else is filled in. */
  lemma {:induction false} EmptyFieldStopsPayment(f: Form, items: Cart.Items, scriptLoaded: bool)
    requires |f.street| == 0 || |f.city| == 0 || |f.state| == 0 || |f.zipCode| == 0
             || |f.name| == 0 || |f.email| == 0 || |f.phone| == 0
    ensures Pay(f, items, scriptLoaded) == MissingFields
  {
  }

  /** The screen: with an empty cart it renders nothing and sends the
      customer to the cart page. */
  datatype View = RedirectToCart | Show(items: Cart.Items)

  function Open(stored: Cart.Stored): (v: View)
    ensures v.RedirectToCart? <==> |Cart.Load(stored)| == 0
    ensures v.Show? ==> v.items == Cart.Load(stored)
  {
    var items := Cart.Load(stored);
    if |items| == 0 then RedirectToCart else Show(items)
  }

  /** After the gateway reports success the cart is emptied and the order
      confirmation shows an id made from the time and the gateway's payment
      id. */
  datatype Confirmation = Confirmation(orderId: string, paymentId: string)

  function PaymentSucceeded(now: string, paymentId: string): (r: (Cart.Stored, Confirmation))
    ensures Cart.Load(r.0) == [] && Cart.ItemCount(Cart.Load(r.0)) == 0
    ensures r.1.paymentId == paymentId && |r.1.orderId| >= 4 && r.1.orderId[..4] == "ORD-"
  {
    (Cart.Clear(), Confirmation("ORD-" + now, paymentId))
  }

  /** A paid checkout leaves nothing to check out: reopening the screen
      sends the customer back to the cart. */
  lemma {:induction false} NoSecondCheckout(now: string, paymentId: string)
    ensures Open(PaymentSucceeded(now, paymentId).0) == RedirectToCart
  {
  }
}
