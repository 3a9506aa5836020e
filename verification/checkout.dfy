/**
  The checkout page: the price breakdown it shows for the cart, the "Pay now"
  handler, and which of its three views it renders.
*/
module Checkout {
  import opened Common
  import opened Catalog
  import opened CartState
  import OrderService

  const DeliveryFee: real := 2.99
  const TaxRate: real := 0.08875

  /**
    The four price lines: the cart total, a flat delivery fee, tax on the
    subtotal alone, and their sum. Nothing is rounded here; rounding happens
    only when the page formats the numbers.
  */
  function PriceLines(c: Cart): (p: OrderService.Pricing)
    ensures p.subtotal == Total(c.items)
    ensures p.deliveryFee == DeliveryFee
    ensures p.total == p.subtotal * (1.0 + TaxRate) + DeliveryFee
    ensures p.tax == p.total - p.subtotal - DeliveryFee
  {
    var subtotal := Total(c.items);
    var tax := subtotal * TaxRate;
    OrderService.Pricing(subtotal, tax, DeliveryFee, subtotal + DeliveryFee + tax)
  }

  /** Two Margheritas at 16.99: subtotal 33.98, fee 2.99, tax 3.0157250, total 39.9857250. */
  lemma TwoMargheritasCheckout()
    ensures var p := PriceLines(Reduce(Reduce(InitialCart, AddItem(Margherita, "1")), AddItem(Margherita, "1")));
      && p.subtotal == 33.98 && p.deliveryFee == 2.99
      && p.tax == 3.015725 && p.total == 39.985725
  {
    TwoMargheritas();
  }

  /** An empty cart is still priced at the delivery fee. */
  lemma EmptyCartCostsTheFee()
    ensures PriceLines(InitialCart).total == DeliveryFee && PriceLines(InitialCart).tax == 0.0
  {
  }

  /** The page's local state next to the shared cart. */
  datatype PageState = PageState(cart: Cart, orderPlaced: bool, processing: bool)

  /**
    `handlePayNow` once its simulated delay has elapsed: the order is marked placed
    and the cart cleared. No payment processor and no order API is involved, so
    nothing else about the cart survives.
  */
  function PayNow(s: PageState): (r: PageState)
    ensures r.orderPlaced && !r.processing
    ensures r.cart == InitialCart && Valid(r.cart)
  {
    InitialCartValid();
    PageState(Reduce(s.cart, ClearCart), true, false)
  }

  /** The outcome of paying does not depend on the cart that was paid for. */
  lemma PayNowForgetsCart(s1: PageState, s2: PageState)
    ensures PayNow(s1) == PayNow(s2)
  {
  }

  datatype View = EmptyCart | Placed | Form

  /** The empty view needs an empty cart and no order yet; once placed, the success view wins. */
  function ViewOf(s: PageState): (v: View)
    ensures v == Placed <==> s.orderPlaced
    ensures v == EmptyCart <==> |s.cart.items| == 0 && !s.orderPlaced
    ensures v == Form <==> |s.cart.items| > 0 && !s.orderPlaced
  {
    if |s.cart.items| == 0 && !s.orderPlaced then EmptyCart
    else if s.orderPlaced then Placed
    else Form
  }

  /** After paying, the success view shows although the cart is now empty. */
  lemma PaidShowsSuccess(s: PageState)
    ensures ViewOf(PayNow(s)) == Placed && |PayNow(s).cart.items| == 0
  {
  }
}
