/** The orders controller: read by key, checkout reconciliation by session id,
    and order creation. */
module Orders {
  import opened Common
  import opened Domain
  import opened Reconciliation
  import opened Pricing

  /** What a refusal or a successful creation is answered with. */
  function Answer(placed: Result<Order, ApiError>): ActionResult<Order> {
    match placed
    case Success(o) => Created(o)
    case Failure(e) => Refused(e)
  }

  class OrdersController {
    const context: DataContext

    constructor (context: DataContext)
      ensures this.context == context
    {
      this.context := context;
    }

    /** GET /orders/{id}, line items included. */
    method GetOrder(id: int) returns (r: ActionResult<Order>)
      requires context.Valid()
      ensures r.Ok? || r == Refused(NotFound)
      ensures r.Ok? <==> exists o :: o in context.Orders && o.Id == id
      ensures r.Ok? ==> r.value in context.Orders && r.value.Id == id
    {
      var found := FindOrder(context.Orders, id);
      if found.None? {
        forall o | o in context.Orders ensures o.Id != id {
          var j :| 0 <= j < |context.Orders| && context.Orders[j] == o;
          assert !(((o: Order) => o.Id == id))(context.Orders[j]);
        }
        return Refused(NotFound);
      }
      return Ok(context.Orders[found.value]);
    }

    /** GET /orders/session/{sessionId}: asks the provider for the session
        (its answer is `lookup`), finds the order created for it, and moves
        that order to Completed or Failed according to the payment status. */
    method GetOrderBySessionId(sessionId: string, lookup: SessionLookup, now: Timestamp) returns (r: ActionResult<Order>)
      requires context.Valid()
      modifies context
      ensures context.Valid()
      ensures context.Products == old(context.Products)
      ensures context.NextProductId == old(context.NextProductId) && context.NextOrderId == old(context.NextOrderId)
      ensures lookup.ProviderError? ==>
        r == Refused(InvalidSession(lookup.message)) && context.Orders == old(context.Orders)
      ensures lookup.Retrieved? && FindOrderBySession(old(context.Orders), sessionId).None? ==>
        r == Refused(NotFound) && context.Orders == old(context.Orders)
      ensures lookup.Retrieved? && FindOrderBySession(old(context.Orders), sessionId).Some? ==>
        var i := FindOrderBySession(old(context.Orders), sessionId).value;
        var order := Reconcile(old(context.Orders[i]), lookup.session, now);
        r == Ok(order) && context.Orders == old(context.Orders)[i := order]
    {
      if lookup.ProviderError? {
        return Refused(InvalidSession(lookup.message));
      }
      var stripeSession := lookup.session;
      var found := FindOrderBySession(context.Orders, sessionId);
      if found.None? {
        return Refused(NotFound);
      }
      var order := context.Orders[found.value];
      if stripeSession.PaymentStatus == "paid" && order.Status != Completed {
        order := order.(Status := Completed);
        order := order.(CompletedDate := Some(now));
        order := order.(StripePaymentIntentId := stripeSession.PaymentIntentId);
        context.Orders := context.Orders[found.value := order];
      } else if stripeSession.PaymentStatus == "unpaid" && order.Status == Pending {
        order := order.(Status := Failed);
        context.Orders := context.Orders[found.value := order];
      }
      return Ok(order);
    }

    /** POST /orders: prices the cart against the product table and stores
        the order only if every line priced. */
    method CreateOrder(request: CreateOrderRequest, modelStateValid: bool, now: Timestamp) returns (r: ActionResult<Order>)
      requires context.Valid()
      modifies context
      ensures context.Valid()
      ensures context.Products == old(context.Products) && context.NextProductId == old(context.NextProductId)
      ensures var placed := PlaceOrder(old(context.Products), request, modelStateValid, old(context.NextOrderId), now);
        && r == Answer(placed)
        && (placed.Success? ==>
              context.Orders == old(context.Orders) + [placed.value]
              && context.NextOrderId == old(context.NextOrderId) + 1)
        && (placed.Failure? ==>
              context.Orders == old(context.Orders) && context.NextOrderId == old(context.NextOrderId))
    {
      if !modelStateValid {
        return Refused(ValidationFailed);
      }
      if request.Items.None? || |request.Items.value| == 0 {
        return Refused(CartEmpty);
      }
      var priced, totalAmount := PriceCart(context.Products, request.Items.value);
      if priced.Failure? {
        return Refused(priced.error);
      }
      var order := Order(context.NextOrderId, request.CustomerEmail, Pending, now, None,
                         totalAmount, request.StripeSessionId, None, priced.value);
      context.Orders := context.Orders + [order];
      context.NextOrderId := context.NextOrderId + 1;
      return Created(order);
    }
  }

  /** The `foreach` of order creation: looks each requested product up, picks
      its unit price, appends the line and accumulates the total; the first
      unknown product (or missing sale price) ends it. */
  method PriceCart(products: seq<Product>, items: seq<CartItemRequest>)
    returns (priced: Result<seq<OrderItem>, ApiError>, totalAmount: Money)
    ensures priced == PriceLines(products, items)
    ensures priced.Success? ==> totalAmount == Total(priced.value)
  {
    var orderItems: seq<OrderItem> := [];
    totalAmount := 0.0;
    var n := 0;
    while n < |items|
      invariant 0 <= n <= |items|
      invariant PriceLines(products, items[..n]) == Success(orderItems)
      invariant totalAmount == Total(orderItems)
    {
      var item := items[n];
      var found := FindProduct(products, item.ProductId);
      if found.None? {
        PriceCartStops(products, items, n, orderItems);
        return Failure(ProductNotFound(item.ProductId)), totalAmount;
      }
      var product := products[found.value];
      if product.IsOnSale && product.SalePrice.None? {
        PriceCartStops(products, items, n, orderItems);
        return Failure(SalePriceMissing(item.ProductId)), totalAmount;
      }
      var priceToUse := if product.IsOnSale then product.SalePrice.value else product.Price;
      var orderItem := OrderItem(product.Id, product.Name, item.Quantity, priceToUse);
      assert Resolvable(products, item);
      assert orderItem == LineFor(products, item);
      PriceCartStep(products, items, n, orderItems, orderItem);
      orderItems := orderItems + [orderItem];
      totalAmount := totalAmount + priceToUse * item.Quantity as real;
      n := n + 1;
    }
    assert items[..n] == items;
    return Success(orderItems), totalAmount;
  }

  /** One pass of the pricing loop: appending the line of a resolvable item
      extends both the priced prefix and the total. */
  lemma PriceCartStep(products: seq<Product>, items: seq<CartItemRequest>, n: nat,
                      lines: seq<OrderItem>, line: OrderItem)
    requires n < |items|
    requires PriceLines(products, items[..n]) == Success(lines)
    requires Resolvable(products, items[n]) && line == LineFor(products, items[n])
    ensures PriceLines(products, items[..n + 1]) == Success(lines + [line])
    ensures Total(lines + [line]) == Total(lines) + line.PriceAtPurchase * line.Quantity as real
  {
    PriceLinesStep(products, items, n, lines);
    TotalAppend(lines, line);
  }

  /** The pricing loop stops at an item that cannot be priced, and the whole
      cart then fails with that item's error. */
  lemma PriceCartStops(products: seq<Product>, items: seq<CartItemRequest>, n: nat, lines: seq<OrderItem>)
    requires n < |items|
    requires PriceLines(products, items[..n]) == Success(lines)
    requires !Resolvable(products, items[n])
    ensures PriceLines(products, items) == Failure(LineError(products, items[n]))
  {
    PriceLinesStep(products, items, n, lines);
    PriceLinesFailureSticks(products, items, n + 1, LineError(products, items[n]));
  }
}
