/** The products controller: CRUD over the Products table, plus search. */
module Products {
  import opened Common
  import opened Domain
  import opened ProductSearch

  /** The rows left after removing row `i`. */
  function RemoveAt(rows: seq<Product>, i: nat): seq<Product>
    requires i < |rows|
  {
    rows[..i] + rows[i + 1..]
  }

  /** With distinct keys, removing the row that holds `id` removes exactly the
      product with that key and keeps every other product. */
  lemma RemoveAtDropsExactlyKey(rows: seq<Product>, next: int, i: nat)
    requires ProductKeys(rows, next) && i < |rows|
    ensures ProductKeys(RemoveAt(rows, i), next)
    ensures forall p :: p in RemoveAt(rows, i) <==> p in rows && p.Id != rows[i].Id
  {
    var r := RemoveAt(rows, i);
    assert forall j :: 0 <= j < |r| ==> r[j] == if j < i then rows[j] else rows[j + 1];
    forall p | p in rows && p.Id != rows[i].Id
      ensures p in r
    {
      var j :| 0 <= j < |rows| && rows[j] == p;
      if j < i { assert r[j] == p; } else { assert r[j - 1] == p; }
    }
  }

  /** A present key is found at the first row that holds it; an absent key is not found. */
  lemma FindProductSpec(rows: seq<Product>, id: int)
    ensures FindProduct(rows, id).Some? <==> exists p :: p in rows && p.Id == id
    ensures FindProduct(rows, id).Some? ==> rows[FindProduct(rows, id).value].Id == id
    ensures FindProduct(rows, id).Some? ==> forall j :: 0 <= j < FindProduct(rows, id).value ==> rows[j].Id != id
  {
    if r :| r in rows && r.Id == id {
      var j :| 0 <= j < |rows| && rows[j] == r;
      assert (((p: Product) => p.Id == id))(rows[j]);
    }
  }

  class ProductsController {
    const context: DataContext

    constructor (context: DataContext)
      ensures this.context == context
    {
      this.context := context;
    }

    /** GET /products: every stored product, in table order. */
    method GetProducts() returns (r: ActionResult<seq<Product>>)
      requires context.Valid()
      ensures r == Ok(context.Products)
    {
      r := Ok(context.Products);
    }

    /** GET /products/{id}. */
    method GetProduct(id: int) returns (r: ActionResult<Product>)
      requires context.Valid()
      ensures r.Ok? || r == Refused(NotFound)
      ensures r.Ok? <==> exists p :: p in context.Products && p.Id == id
      ensures r.Ok? ==> r.value in context.Products && r.value.Id == id
    {
      FindProductSpec(context.Products, id);
      var found := FindProduct(context.Products, id);
      if found.None? {
        return Refused(NotFound);
      }
      return Ok(context.Products[found.value]);
    }

    /** POST /products: stamps both audit dates, lets the store assign the key. */
    method CreateProduct(product: Product, modelStateValid: bool, now: Timestamp, saveSucceeded: bool)
      returns (r: ActionResult<Product>)
      requires context.Valid()
      modifies context
      ensures context.Valid()
      ensures context.Orders == old(context.Orders) && context.NextOrderId == old(context.NextOrderId)
      ensures !modelStateValid || !saveSucceeded ==>
        r == Refused(if modelStateValid then SaveFailed else ValidationFailed) &&
        context.Products == old(context.Products) && context.NextProductId == old(context.NextProductId)
      ensures modelStateValid && saveSucceeded ==>
        && r.Created?
        && r.value.Id == old(context.NextProductId)
        && r.value == product.(Id := r.value.Id, CreatedDate := now, LastUpdatedDate := now)
        && context.Products == old(context.Products) + [r.value]
        && context.NextProductId == old(context.NextProductId) + 1
    {
      if !modelStateValid {
        return Refused(ValidationFailed);
      }
      var created := product.(CreatedDate := now, LastUpdatedDate := now);
      if !saveSucceeded {
        return Refused(SaveFailed);
      }
      created := created.(Id := context.NextProductId);
      context.Products := context.Products + [created];
      context.NextProductId := context.NextProductId + 1;
      return Created(created);
    }

    /** PUT /products/{id}: overwrites the mutable fields of the stored row. */
    method UpdateProduct(id: int, product: Product, modelStateValid: bool, now: Timestamp, saveSucceeded: bool)
      returns (r: ActionResult<Product>)
      requires context.Valid()
      modifies context
      ensures context.Valid()
      ensures context.Orders == old(context.Orders)
      ensures context.NextProductId == old(context.NextProductId) && context.NextOrderId == old(context.NextOrderId)
      ensures id != product.Id ==> r == Refused(IdMismatch)
      ensures id == product.Id && !modelStateValid ==> r == Refused(ValidationFailed)
      ensures id == product.Id && modelStateValid && FindProduct(old(context.Products), id).None? ==>
        r == Refused(NotFound)
      ensures r.Refused? ==> context.Products == old(context.Products)
      ensures id == product.Id && modelStateValid && FindProduct(old(context.Products), id).Some? ==>
        var i := FindProduct(old(context.Products), id).value;
        var existing := old(context.Products[i]);
        if !saveSucceeded then r == Refused(SaveFailed)
        else
          && r.Ok?
          && context.Products == old(context.Products)[i := r.value]
          && r.value.Id == existing.Id
          && r.value.CreatedDate == existing.CreatedDate
          && r.value.Name == product.Name
          && r.value.Description == product.Description
          && r.value.Price == product.Price
          && r.value.IsOnSale == product.IsOnSale
          && r.value.SalePrice == product.SalePrice
          && r.value.CurrentStock == product.CurrentStock
          && r.value.ImageUrl == product.ImageUrl
          && r.value.LastUpdatedDate == now
    {
      if id != product.Id {
        return Refused(IdMismatch);
      }
      if !modelStateValid {
        return Refused(ValidationFailed);
      }
      var found := FindProduct(context.Products, id);
      if found.None? {
        return Refused(NotFound);
      }
      var existing := context.Products[found.value];
      existing := existing.(Name := product.Name);
      existing := existing.(Description := product.Description);
      existing := existing.(Price := product.Price);
      existing := existing.(IsOnSale := product.IsOnSale);
      existing := existing.(SalePrice := product.SalePrice);
      existing := existing.(CurrentStock := product.CurrentStock);
      existing := existing.(ImageUrl := product.ImageUrl);
      existing := existing.(LastUpdatedDate := now);
      if !saveSucceeded {
        return Refused(SaveFailed);
      }
      context.Products := context.Products[found.value := existing];
      return Ok(existing);
    }

    /** DELETE /products/{id}. */
    method DeleteProduct(id: int, saveSucceeded: bool) returns (r: ActionResult<Product>)
      requires context.Valid()
      modifies context
      ensures context.Valid()
      ensures context.Orders == old(context.Orders)
      ensures context.NextProductId == old(context.NextProductId) && context.NextOrderId == old(context.NextOrderId)
      ensures FindProduct(old(context.Products), id).None? ==> r == Refused(NotFound)
      ensures r.Refused? ==> context.Products == old(context.Products)
      ensures FindProduct(old(context.Products), id).Some? ==>
        var i := FindProduct(old(context.Products), id).value;
        if !saveSucceeded then r == Refused(SaveFailed)
        else
          && r == NoContent
          && context.Products == RemoveAt(old(context.Products), i)
          && forall p :: p in context.Products <==> p in old(context.Products) && p.Id != id
    {
      var found := FindProduct(context.Products, id);
      if found.None? {
        return Refused(NotFound);
      }
      if !saveSucceeded {
        return Refused(SaveFailed);
      }
      RemoveAtDropsExactlyKey(context.Products, context.NextProductId, found.value);
      context.Products := RemoveAt(context.Products, found.value);
      return NoContent;
    }

    /** GET /products/search. */
    method SearchProducts(q: SearchQuery) returns (r: ActionResult<seq<Product>>)
      requires context.Valid()
      ensures r.Ok?
      ensures forall i :: 0 <= i < |r.value| ==> r.value[i] in context.Products && Matches(q, r.value[i])
      ensures forall p :: multiset(r.value)[p] == if Matches(q, p) then multiset(context.Products)[p] else 0
      ensures Ordered(SortKeyOf(q.sortBy), IsDescending(q.sortOrder), r.value)
      ensures forall e :: Ties(SortKeyOf(q.sortBy), r.value, e) == Ties(SortKeyOf(q.sortBy), Where(context.Products, q), e)
    {
      var products := Where(context.Products, q);
      products := Sort(SortKeyOf(q.sortBy), IsDescending(q.sortOrder), products);
      assert products == Search(context.Products, q);
      return Ok(products);
    }
  }
}
