/** The two tables of the inventory database, the request payloads and the fixed constants. */
module Records {
  import opened Wrappers

  /** A row of the product table. `price` and `cost` are in integer minor units. */
  datatype Product = Product(
    id: int,
    name: string,
    sku: string,
    stockLevel: int,
    category: Option<string>,
    price: Option<int>,
    cost: Option<int>)

  /** A row of the restock log; `timestamp` is in seconds. */
  datatype RestockLog = RestockLog(id: int, productId: int, quantity: int, timestamp: int)

  /** The two ways a handler fails: a required JSON key is missing (HTTP 400), or the id is unknown (HTTP 404). */
  datatype Error = MissingField(field: string) | NotFound(id: int)

  /** The JSON body of a create or update request; `None` marks a key that is absent. */
  datatype ProductPayload = ProductPayload(
    name: Option<string>,
    sku: Option<string>,
    stockLevel: Option<int>,
    category: Option<string>,
    price: Option<int>,
    cost: Option<int>)

  /** The JSON body of a restock request. */
  datatype RestockPayload = RestockPayload(quantity: Option<int>)

  /** The product table, keyed by primary key. */
  type Table = map<int, Product>

  const LowStockThreshold: int := 10
  const SecondsPerDay: int := 86400
  const TrendDays: int := 30
  const RecentLogLimit: int := 5

  /** Every row is stored under its own primary key. */
  ghost predicate WellKeyed(t: Table) {
    forall id :: id in t ==> t[id].id == id
  }

  /** Fetching a row by primary key, failing with NotFound when there is none. */
  function Lookup(t: Table, id: int): (r: Result<Product, Error>)
    ensures r.Success? <==> id in t
    ensures r.Success? ==> r.value == t[id]
    ensures r.Failure? ==> r.error == NotFound(id)
  {
    if id in t then Success(t[id]) else Failure(NotFound(id))
  }

  /** The row after `quantity` is added to its stock level. */
  function Restocked(p: Product, quantity: int): Product {
    p.(stockLevel := p.stockLevel + quantity)
  }

  /** The JSON object a product is serialized to, read back as a request body. */
  function PayloadOf(p: Product): ProductPayload {
    ProductPayload(Some(p.name), Some(p.sku), Some(p.stockLevel), p.category, p.price, p.cost)
  }
}
