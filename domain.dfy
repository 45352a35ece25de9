/** The entities the two controllers work on, the outcomes they answer with,
    and the data context that holds the Products and Orders tables. */
module Domain {
  import opened Common

  datatype Product = Product(
    Id: int,
    Name: string,
    Description: string,
    Price: Money,
    IsOnSale: bool,
    SalePrice: Option<Money>,
    CurrentStock: int,
    ImageUrl: string,
    CreatedDate: Timestamp,
    LastUpdatedDate: Timestamp)

  datatype OrderStatus = Pending | Completed | Failed

  /** A line of an order; name and price are snapshots taken at purchase time. */
  datatype OrderItem = OrderItem(ProductId: int, ProductName: string, Quantity: int, PriceAtPurchase: Money)

  datatype Order = Order(
    Id: int,
    CustomerEmail: string,
    Status: OrderStatus,
    CreatedDate: Timestamp,
    CompletedDate: Option<Timestamp>,
    TotalAmount: Money,
    StripeSessionId: Option<string>,
    StripePaymentIntentId: Option<string>,
    OrderItems: seq<OrderItem>)

  /** Why a request was refused. */
  datatype ApiError =
    | ValidationFailed                    // ModelState invalid
    | NotFound                            // no product / order with that key
    | CartEmpty                           // no items in the order request
    | ProductNotFound(productId: int)     // an order item names an unknown product
    | SalePriceMissing(productId: int)    // on sale without a sale price: `SalePrice!.Value` throws
    | InvalidSession(providerMessage: string)  // the payment provider rejected the session id
    | IdMismatch                          // id in the URL differs from the id in the body
    | SaveFailed                          // the store reported zero rows affected

  /** What an action answers with. */
  datatype ActionResult<T> = Ok(value: T) | Created(value: T) | NoContent | Refused(error: ApiError)

  /** The HTTP status code each outcome is sent with. */
  function StatusCode<T>(r: ActionResult<T>): (code: int)
    ensures 200 <= code < 600
    ensures code < 300 <==> !r.Refused?
    ensures r.Refused? <==> 400 <= code
    ensures code == 200 <==> r.Ok?
    ensures code == 201 <==> r.Created?
    ensures code == 204 <==> r.NoContent?
    ensures code == 422 <==> r == Refused(ValidationFailed)
    ensures code == 404 <==> r == Refused(NotFound)
    ensures code == 500 <==> r.Refused? && r.error.SalePriceMissing?
    ensures code == 400 <==> r.Refused? && r.error !in {ValidationFailed, NotFound} && !r.error.SalePriceMissing?
  {
    match r
    case Ok(_) => 200
    case Created(_) => 201
    case NoContent => 204
    case Refused(ValidationFailed) => 422
    case Refused(NotFound) => 404
    case Refused(SalePriceMissing(_)) => 500
    case Refused(_) => 400
  }

  /** Index of the product with primary key `id` (`Products.FindAsync(id)`). */
  function FindProduct(rows: seq<Product>, id: int): Option<nat> {
    FirstIndex(rows, (p: Product) => p.Id == id)
  }

  /** Index of the order with primary key `id`. */
  function FindOrder(rows: seq<Order>, id: int): Option<nat> {
    FirstIndex(rows, (o: Order) => o.Id == id)
  }

  /** Index of the first order whose `StripeSessionId` equals `sessionId`. */
  function FindOrderBySession(rows: seq<Order>, sessionId: string): Option<nat> {
    FirstIndex(rows, (o: Order) => o.StripeSessionId == Some(sessionId))
  }

  /** Keys of a table are distinct, positive and below the next identity value. */
  ghost predicate ProductKeys(rows: seq<Product>, next: int) {
    && 1 <= next
    && (forall i :: 0 <= i < |rows| ==> 1 <= rows[i].Id < next)
    && (forall i, j :: 0 <= i < j < |rows| ==> rows[i].Id != rows[j].Id)
  }

  ghost predicate OrderKeys(rows: seq<Order>, next: int) {
    && 1 <= next
    && (forall i :: 0 <= i < |rows| ==> 1 <= rows[i].Id < next)
    && (forall i, j :: 0 <= i < j < |rows| ==> rows[i].Id != rows[j].Id)
  }

  /** The database: two tables, rows in retrieval order, and the identity
      generators the database uses to assign new keys. */
  class DataContext {
    var Products: seq<Product>
    var Orders: seq<Order>
    var NextProductId: int
    var NextOrderId: int

    ghost predicate Valid()
      reads this
    {
      ProductKeys(Products, NextProductId) && OrderKeys(Orders, NextOrderId)
    }

    constructor ()
      ensures Valid()
      ensures Products == [] && Orders == []
    {
      Products := [];
      Orders := [];
      NextProductId := 1;
      NextOrderId := 1;
    }
  }
}
