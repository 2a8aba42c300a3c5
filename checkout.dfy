/**
 * What the checkout handler sends to the hosted payment gateway: one line
 * item per product of the user's cart, and the fixed session options around
 * them. The gateway itself is outside the model: it is a function from the
 * request to a reply the handler cannot predict.
 */
module Checkout {
  import opened Wrappers
  import opened Schema
  import opened Decimal
  import opened Queries

  const CURRENCY := "usd"
  const ALLOWED_COUNTRIES := ["US", "CA"]

  /** One entry of `line_items`: its `price_data` and its `quantity`. */
  datatype LineItem = LineItem(currency: string, name: string, unitAmount: int, quantity: int)

  /** The arguments of the payment-session creation call. */
  datatype CheckoutRequest = CheckoutRequest(
    setupFutureUsage: string,
    customerEmail: string,
    paymentMethodTypes: seq<string>,
    lineItems: seq<LineItem>,
    mode: string,
    successUrl: string,
    cancelUrl: string,
    allowedCountries: seq<string>)

  /** What the gateway call does: returns a session, or raises with a message. */
  datatype GatewayReply = Created(sessionId: string) | Failed(message: string)

  /** The line item for one product; the unit amount is the price in cents. */
  function ItemFor(p: Product): (item: LineItem)
    ensures item.unitAmount == p.price * 100
    ensures item.currency == CURRENCY && item.quantity == 1 && item.name == p.name
  {
    LineItem(CURRENCY, p.name, MinorUnits(p.price), 1)
  }

  /** The `checkout_items` list the handler's loop builds, one item per product, in order. */
  function LineItems(ps: seq<Product>): (items: seq<LineItem>)
    ensures |items| == |ps|
    ensures forall k :: 0 <= k < |ps| ==> items[k] == ItemFor(ps[k])
  {
    if ps == [] then [] else LineItems(ps[..|ps| - 1]) + [ItemFor(ps[|ps| - 1])]
  }

  /** The session request for a customer's line items, with redirects under `domain`. */
  function BuildRequest(email: string, items: seq<LineItem>, domain: string): (req: CheckoutRequest)
    ensures req.lineItems == items && req.customerEmail == email
    ensures req.successUrl == domain + "/success" && req.cancelUrl == domain + "/cancel"
    ensures req.mode == "payment" && req.paymentMethodTypes == ["card"]
    ensures req.setupFutureUsage == "off_session" && req.allowedCountries == ALLOWED_COUNTRIES
  {
    CheckoutRequest(
      "off_session", email, ["card"], items, "payment",
      domain + "/success", domain + "/cancel", ALLOWED_COUNTRIES)
  }

  /** The handler's answer: the session id, or the error message with status 403. */
  function Answer(reply: GatewayReply): (r: Result<string, Error>)
    ensures reply.Created? <==> r.Ok?
    ensures reply.Created? ==> r.value == reply.sessionId
    ensures reply.Failed? ==> r == Err(GatewayError(reply.message))
  {
    match reply
    case Created(id) => Ok(id)
    case Failed(msg) => Err(GatewayError(msg))
  }

  /**
   * Checkout of a cart whose rows all resolve sends exactly one line item per
   * row, in row order: quantity 1, currency usd, the name of the product the
   * row names and its price in cents.
   */
  lemma LineItemsMatchRows(products: seq<Product>, rows: seq<CartRow>)
    requires Resolve(Join(products, rows)).Some?
    ensures var items := LineItems(Resolve(Join(products, rows)).value);
      && |items| == |rows|
      && forall k :: 0 <= k < |rows| ==>
        && FindProduct(products, rows[k].productId).Some?
        && var p := FindProduct(products, rows[k].productId).value;
        && items[k].quantity == 1
        && items[k].currency == CURRENCY
        && items[k].name == p.name
        && items[k].unitAmount == p.price * 100
  {
    JoinResolves(products, rows);
  }
}
