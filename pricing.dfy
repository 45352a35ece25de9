/** Order creation as a function of the product table: pricing each requested
    line and building the Pending order, or the first reason to refuse. */
module Pricing {
  import opened Common
  import opened Domain

  datatype CartItemRequest = CartItemRequest(ProductId: int, Quantity: int)

  /** The body of `POST /orders`; a null item list is None. */
  datatype CreateOrderRequest = CreateOrderRequest(
    CustomerEmail: string,
    StripeSessionId: Option<string>,
    Items: Option<seq<CartItemRequest>>)

  /** The unit price charged for a product: the sale price while it is on sale,
      else the list price. None when it is on sale without a sale price. */
  function UnitPrice(p: Product): (r: Option<Money>)
    ensures r.None? <==> p.IsOnSale && p.SalePrice.None?
    ensures r.Some? && p.IsOnSale ==> r == p.SalePrice
    ensures r.Some? && !p.IsOnSale ==> r == Some(p.Price)
  {
    if p.IsOnSale then p.SalePrice else Some(p.Price)
  }

  /** A product that can be priced. */
  predicate SalePriced(p: Product) {
    p.IsOnSale ==> p.SalePrice.Some?
  }

  /** A requested line can be priced: its product exists and has a unit price. */
  predicate Resolvable(products: seq<Product>, req: CartItemRequest) {
    FindProduct(products, req.ProductId).Some? && UnitPrice(products[FindProduct(products, req.ProductId).value]).Some?
  }

  /** Why a line cannot be priced. */
  function LineError(products: seq<Product>, req: CartItemRequest): ApiError {
    if FindProduct(products, req.ProductId).None? then ProductNotFound(req.ProductId)
    else SalePriceMissing(req.ProductId)
  }

  /** The order line for a resolvable request: the product's key and name and
      the unit price at this moment. */
  function LineFor(products: seq<Product>, req: CartItemRequest): (line: OrderItem)
    requires Resolvable(products, req)
    ensures var p := products[FindProduct(products, req.ProductId).value];
      && line.ProductId == req.ProductId && line.Quantity == req.Quantity
      && line.ProductName == p.Name
      && line.PriceAtPurchase == if p.IsOnSale then p.SalePrice.value else p.Price
  {
    var p := products[FindProduct(products, req.ProductId).value];
    OrderItem(p.Id, p.Name, req.Quantity, UnitPrice(p).value)
  }

  /** The product ids a cart asks for. */
  function ProductIds(reqs: seq<CartItemRequest>): set<int> {
    set r | r in reqs :: r.ProductId
  }

  /** The lines of an order, priced one request after another; the first line
      that cannot be priced stops the whole build. */
  function PriceLines(products: seq<Product>, reqs: seq<CartItemRequest>): (r: Result<seq<OrderItem>, ApiError>)
    ensures r.Success? ==> |r.value| == |reqs|
    ensures r.Failure? ==>
      && (r.error.ProductNotFound? || r.error.SalePriceMissing?)
      && r.error.productId in ProductIds(reqs)
    decreases |reqs|
  {
    if reqs == [] then Success([])
    else
      var last := reqs[|reqs| - 1];
      match PriceLines(products, reqs[..|reqs| - 1])
      case Failure(e) => Failure(e)
      case Success(lines) =>
        if Resolvable(products, last) then Success(lines + [LineFor(products, last)])
        else Failure(LineError(products, last))
  }

  /** The order total: the sum of unit price times quantity over the lines. */
  function Total(items: seq<OrderItem>): (t: Money)
    decreases |items|
  {
    if items == [] then 0.0
    else
      Total(items[..|items| - 1]) + LineAmount(items[|items| - 1])
  }

  /** The amount a line contributes to the total. */
  function LineAmount(line: OrderItem): Money {
    line.PriceAtPurchase * line.Quantity as real
  }

  lemma TotalAppend(items: seq<OrderItem>, line: OrderItem)
    ensures Total(items + [line]) == Total(items) + LineAmount(line)
  {
    assert (items + [line])[..|items|] == items;
  }

  /** With non-negative prices and quantities the total is never negative. */
  lemma {:induction false} TotalNonNegative(items: seq<OrderItem>)
    requires forall i :: 0 <= i < |items| ==> items[i].PriceAtPurchase >= 0.0 && items[i].Quantity >= 0
    ensures Total(items) >= 0.0
    decreases |items|
  {
    if items != [] {
      var last := items[|items| - 1];
      assert LineAmount(last) >= 0.0;
      TotalNonNegative(items[..|items| - 1]);
    }
  }

  /** The whole of order creation: validation, the empty-cart check, pricing. */
  function PlaceOrder(products: seq<Product>, req: CreateOrderRequest, modelStateValid: bool, id: int, now: Timestamp)
    : Result<Order, ApiError>
  {
    if !modelStateValid then Failure(ValidationFailed)
    else if req.Items.None? || |req.Items.value| == 0 then Failure(CartEmpty)
    else match PriceLines(products, req.Items.value)
      case Failure(e) => Failure(e)
      case Success(lines) =>
        Success(Order(id, req.CustomerEmail, Pending, now, None, Total(lines), req.StripeSessionId, None, lines))
  }

  /** Pricing succeeds exactly when every line can be priced, and then gives
      one line per request, in request order, each carrying the requested
      product and quantity and that product's effective price. */
  lemma {:induction false} PriceLinesSucceeds(products: seq<Product>, reqs: seq<CartItemRequest>)
    ensures PriceLines(products, reqs).Success? <==> forall i :: 0 <= i < |reqs| ==> Resolvable(products, reqs[i])
    ensures PriceLines(products, reqs).Success? ==>
      var lines := PriceLines(products, reqs).value;
      && |lines| == |reqs|
      && forall i :: 0 <= i < |reqs| ==>
        && lines[i] == LineFor(products, reqs[i])
        && lines[i].ProductId == reqs[i].ProductId
        && lines[i].Quantity == reqs[i].Quantity
    decreases |reqs|
  {
    if reqs != [] {
      var init := reqs[..|reqs| - 1];
      PriceLinesSucceeds(products, init);
      assert forall i :: 0 <= i < |init| ==> init[i] == reqs[i];
    }
  }

  /** When some line cannot be priced, creation fails with the error of the
      first such line (the unknown product id, or its missing sale price). */
  lemma {:induction false} PriceLinesFailsAtFirstBadLine(products: seq<Product>, reqs: seq<CartItemRequest>, i: nat)
    requires i < |reqs|
    requires forall j :: 0 <= j < i ==> Resolvable(products, reqs[j])
    requires !Resolvable(products, reqs[i])
    ensures PriceLines(products, reqs) == Failure(LineError(products, reqs[i]))
    decreases |reqs|
  {
    var init := reqs[..|reqs| - 1];
    if i < |reqs| - 1 {
      assert init[i] == reqs[i];
      assert forall j :: 0 <= j < i ==> init[j] == reqs[j];
      PriceLinesFailsAtFirstBadLine(products, init, i);
    } else {
      assert forall j :: 0 <= j < |init| ==> init[j] == reqs[j];
      PriceLinesSucceeds(products, init);
    }
  }

  /** Pricing one more line of the cart extends the priced prefix. */
  lemma PriceLinesStep(products: seq<Product>, reqs: seq<CartItemRequest>, n: nat, lines: seq<OrderItem>)
    requires n < |reqs|
    requires PriceLines(products, reqs[..n]) == Success(lines)
    ensures PriceLines(products, reqs[..n + 1]) ==
      if Resolvable(products, reqs[n]) then Success(lines + [LineFor(products, reqs[n])])
      else Failure(LineError(products, reqs[n]))
  {
    assert reqs[..n + 1][..n] == reqs[..n];
  }

  /** Once a prefix fails, every extension of it fails the same way. */
  lemma {:induction false} PriceLinesFailureSticks(products: seq<Product>, reqs: seq<CartItemRequest>, n: nat, e: ApiError)
    requires n <= |reqs|
    requires PriceLines(products, reqs[..n]) == Failure(e)
    ensures PriceLines(products, reqs) == Failure(e)
    decreases |reqs| - n
  {
    if n < |reqs| {
      assert reqs[..n + 1][..n] == reqs[..n];
      PriceLinesFailureSticks(products, reqs, n + 1, e);
    } else {
      assert reqs[..n] == reqs;
    }
  }

  /** In a catalog where every product on sale has a sale price, creation can
      only fail for an unknown product, never by a missing sale price. */
  lemma {:induction false} SalePricedCatalogNeverFaults(products: seq<Product>, reqs: seq<CartItemRequest>)
    requires forall j :: 0 <= j < |products| ==> SalePriced(products[j])
    ensures PriceLines(products, reqs).Failure? ==> PriceLines(products, reqs).error.ProductNotFound?
    decreases |reqs|
  {
    if reqs != [] {
      PriceLinesSucceeds(products, reqs[..|reqs| - 1]);
      SalePricedCatalogNeverFaults(products, reqs[..|reqs| - 1]);
    }
  }

  /** A placed order is Pending, not yet completed, carries the request's email
      and session id, one line per requested item, and a total equal to the sum
      of its lines. An empty or missing cart is refused. */
  lemma PlaceOrderOutcome(products: seq<Product>, req: CreateOrderRequest, modelStateValid: bool, id: int, now: Timestamp)
    ensures modelStateValid && (req.Items.None? || req.Items.value == []) ==>
      PlaceOrder(products, req, modelStateValid, id, now) == Failure(CartEmpty)
    ensures PlaceOrder(products, req, modelStateValid, id, now).Success? ==>
      var o := PlaceOrder(products, req, modelStateValid, id, now).value;
      && o.Id == id && o.Status == Pending && o.CreatedDate == now
      && o.CompletedDate.None? && o.StripePaymentIntentId.None?
      && o.CustomerEmail == req.CustomerEmail && o.StripeSessionId == req.StripeSessionId
      && req.Items.Some? && |o.OrderItems| == |req.Items.value| > 0
      && o.TotalAmount == Total(o.OrderItems)
      && (forall i :: 0 <= i < |o.OrderItems| ==> Resolvable(products, req.Items.value[i]))
      && (forall i :: 0 <= i < |o.OrderItems| ==> o.OrderItems[i] == LineFor(products, req.Items.value[i]))
  {
    if modelStateValid && req.Items.Some? && req.Items.value != [] {
      PriceLinesSucceeds(products, req.Items.value);
    }
  }

  /** Two of a product listed at 10.00 and not on sale: one line at 10.00 and
      a total of 20.00. */
  lemma TwoAtTen(p: Product, req: CreateOrderRequest, id: int, now: Timestamp)
    requires p.Id == 1 && p.Price == 10.0 && !p.IsOnSale
    requires req.Items == Some([CartItemRequest(1, 2)])
    ensures var placed := PlaceOrder([p], req, true, id, now);
      && placed.Success?
      && placed.value.OrderItems == [OrderItem(1, p.Name, 2, 10.0)]
      && placed.value.TotalAmount == 20.0
  {
    var reqs := [CartItemRequest(1, 2)];
    assert reqs[..|reqs| - 1] == [];
    assert FindProduct([p], 1) == Some(0);
    assert Resolvable([p], reqs[0]);
    var line := OrderItem(1, p.Name, 2, 10.0);
    assert LineFor([p], reqs[0]) == line;
    assert PriceLines([p], reqs) == Success([] + [line]);
    assert [line][..0] == [];
    assert Total([line]) == 20.0;
  }
}
