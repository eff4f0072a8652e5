/** The writing handlers: create, update and delete a product, and record a restock.
    Each runs on its own (one request at a time) and either commits all of its
    writes or none of them. */
module Store {
  import opened Wrappers
  import opened Records
  import Queries

  /** The row `POST /api/products` builds from its body: `name` and `sku` are
      required (`name` is read first), `stock_level` defaults to 0 and the other
      fields to null. */
  function NewProduct(id: int, data: ProductPayload): (r: Result<Product, Error>)
    ensures data.name.None? ==> r == Failure(MissingField("name"))
    ensures data.name.Some? && data.sku.None? ==> r == Failure(MissingField("sku"))
    ensures r.Success? <==> data.name.Some? && data.sku.Some?
    ensures r.Success? ==> r.value.id == id
    ensures r.Success? ==> r.value.name == data.name.value && r.value.sku == data.sku.value
    ensures r.Success? ==> r.value.stockLevel == (if data.stockLevel.None? then 0 else data.stockLevel.value)
    ensures r.Success? ==> r.value.category == data.category
    ensures r.Success? ==> r.value.price == data.price && r.value.cost == data.cost
  {
    if data.name.None? then Failure(MissingField("name"))
    else if data.sku.None? then Failure(MissingField("sku"))
    else Success(Product(id, data.name.value, data.sku.value, data.stockLevel.GetOr(0),
                         data.category, data.price, data.cost))
  }

  /** The row `PUT /api/products/<id>` leaves behind: `name` and `sku` are
      required, `category`, `price` and `cost` are replaced (by null when absent)
      and `stock_level` keeps its old value when absent. */
  function UpdatedProduct(p: Product, data: ProductPayload): (r: Result<Product, Error>)
    ensures data.name.None? ==> r == Failure(MissingField("name"))
    ensures data.name.Some? && data.sku.None? ==> r == Failure(MissingField("sku"))
    ensures r.Success? <==> data.name.Some? && data.sku.Some?
    ensures r.Success? ==> r.value.id == p.id
    ensures r.Success? ==> r.value.name == data.name.value && r.value.sku == data.sku.value
    ensures r.Success? ==> r.value.category == data.category
    ensures r.Success? ==> r.value.price == data.price && r.value.cost == data.cost
    ensures r.Success? ==> r.value.stockLevel == (if data.stockLevel.None? then p.stockLevel else data.stockLevel.value)
  {
    if data.name.None? then Failure(MissingField("name"))
    else if data.sku.None? then Failure(MissingField("sku"))
    else Success(p.(name := data.name.value, sku := data.sku.value,
                    category := data.category, price := data.price, cost := data.cost,
                    stockLevel := data.stockLevel.GetOr(p.stockLevel)))
  }

  /** An update is idempotent: sending the same body twice leaves the row as sending it once. */
  lemma UpdateIdempotent(p: Product, data: ProductPayload)
    ensures UpdatedProduct(p, data).Success? ==>
      UpdatedProduct(UpdatedProduct(p, data).value, data) == UpdatedProduct(p, data)
  {
  }

  /** Sending a row's own serialization back as an update changes nothing, and
      creating from it under the same id rebuilds the row. */
  lemma PayloadRoundTrip(p: Product)
    ensures UpdatedProduct(p, PayloadOf(p)) == Success(p)
    ensures NewProduct(p.id, PayloadOf(p)) == Success(p)
  {
  }

  /** An update of a freshly created row with the body it was created from gives the same row. */
  lemma UpdateAfterCreate(id: int, data: ProductPayload)
    ensures NewProduct(id, data).Success? ==>
      UpdatedProduct(NewProduct(id, data).value, data) == NewProduct(id, data)
  {
  }

  /** Rows sit under their own ids, all below the next id to hand out. */
  ghost predicate TableIds(t: Table, next: int) {
    && 1 <= next
    && forall id :: id in t ==> t[id].id == id && 1 <= id < next
  }

  /** The log's ids increase along it and stay below the next id to hand out. */
  ghost predicate LogIds(logs: seq<RestockLog>, next: int) {
    && 1 <= next
    && (forall i :: 0 <= i < |logs| ==> 1 <= logs[i].id < next)
    && (forall i, j :: 0 <= i < j < |logs| ==> logs[i].id < logs[j].id)
  }

  lemma PutRow(t: Table, next: int, p: Product)
    requires TableIds(t, next) && p.id in t
    ensures TableIds(t[p.id := p], next)
  {
  }

  lemma AppendLog(logs: seq<RestockLog>, next: int, l: RestockLog)
    requires LogIds(logs, next) && l.id == next
    ensures LogIds(logs + [l], next + 1)
  {
  }

  /** Distinct ids make distinct rows, as the dashboard's counts assume. */
  lemma LogIdsDistinct(logs: seq<RestockLog>, next: int)
    requires LogIds(logs, next)
    ensures Queries.DistinctLogs(logs)
  {
  }

  /** The product table, the restock log and the counters behind their primary keys. */
  class ProductStore {
    var products: Table
    var logs: seq<RestockLog>
    var nextProductId: int
    var nextLogId: int

    /** Rows sit under their own ids, every id was handed out by a counter,
        and the log is in insertion (id) order. */
    ghost predicate Valid()
      reads this
    {
      TableIds(products, nextProductId) && LogIds(logs, nextLogId)
    }

    constructor ()
      ensures Valid()
      ensures products == map[] && logs == []
    {
      products := map[];
      logs := [];
      nextProductId := 1;
      nextLogId := 1;
    }

    /** `POST /api/products`. */
    method AddProduct(data: ProductPayload) returns (r: Result<Product, Error>)
      requires Valid()
      modifies this
      ensures Valid()
      ensures r == NewProduct(old(nextProductId), data)
      ensures r.Failure? ==> products == old(products) && nextProductId == old(nextProductId)
      ensures r.Success? ==> r.value.id !in old(products)
      ensures r.Success? ==> products == old(products)[r.value.id := r.value]
      ensures r.Success? ==> |products| == |old(products)| + 1
      ensures r.Success? ==> nextProductId == old(nextProductId) + 1
      ensures logs == old(logs) && nextLogId == old(nextLogId)
    {
      r := NewProduct(nextProductId, data);
      if r.Success? {
        assert nextProductId !in products;
        products := products[nextProductId := r.value];
        nextProductId := nextProductId + 1;
      }
    }

    /** `PUT /api/products/<id>`: the row is looked up first, so an unknown id wins over a bad body. */
    method UpdateProduct(id: int, data: ProductPayload) returns (r: Result<Product, Error>)
      requires Valid()
      modifies this
      ensures Valid()
      ensures id !in old(products) ==> r == Failure(NotFound(id))
      ensures id in old(products) ==> r == UpdatedProduct(old(products)[id], data)
      ensures r.Success? ==> products == old(products)[id := r.value]
      ensures r.Failure? ==> products == old(products)
      ensures logs == old(logs) && nextProductId == old(nextProductId) && nextLogId == old(nextLogId)
    {
      var found := Lookup(products, id);
      if found.Failure? {
        return Failure(found.error);
      }
      r := UpdatedProduct(found.value, data);
      if r.Success? {
        products := products[id := r.value];
      }
    }

    /** `DELETE /api/products/<id>`: removes the row and nothing else; its restock events stay. */
    method DeleteProduct(id: int) returns (r: Result<bool, Error>)
      requires Valid()
      modifies this
      ensures Valid()
      ensures r.Success? <==> id in old(products)
      ensures r.Success? ==> r.value && products == old(products) - {id}
      ensures r.Success? ==> |products| == |old(products)| - 1
      ensures r.Failure? ==> r.error == NotFound(id) && products == old(products)
      ensures logs == old(logs) && nextProductId == old(nextProductId) && nextLogId == old(nextLogId)
    {
      var found := Lookup(products, id);
      if found.Failure? {
        return Failure(found.error);
      }
      products := products - {id};
      r := Success(true);
    }

    /** `POST /api/products/<id>/restock` at time `now`: adds the quantity (of
        either sign) to the stock level and appends one restock event. */
    method Restock(id: int, data: RestockPayload, now: int) returns (r: Result<Product, Error>)
      requires Valid()
      modifies this
      ensures Valid()
      ensures id !in old(products) ==> r == Failure(NotFound(id))
      ensures id in old(products) && data.quantity.None? ==> r == Failure(MissingField("quantity"))
      ensures r.Success? <==> id in old(products) && data.quantity.Some?
      ensures r.Failure? ==> products == old(products) && logs == old(logs) && nextLogId == old(nextLogId)
      ensures r.Success? ==>
        && r.value == Restocked(old(products)[id], data.quantity.value)
        && r.value.stockLevel == old(products)[id].stockLevel + data.quantity.value
        && products == old(products)[id := r.value]
        && logs == old(logs) + [RestockLog(old(nextLogId), id, data.quantity.value, now)]
        && nextLogId == old(nextLogId) + 1
      ensures nextProductId == old(nextProductId)
    {
      var found := Lookup(products, id);
      if found.Failure? {
        return Failure(found.error);
      }
      if data.quantity.None? {
        return Failure(MissingField("quantity"));
      }
      var quantity := data.quantity.value;
      var p := Restocked(found.value, quantity);
      var entry := RestockLog(nextLogId, id, quantity, now);
      AppendLog(logs, nextLogId, entry);
      PutRow(products, nextProductId, p);
      products := products[id := p];
      logs := logs + [entry];
      nextLogId := nextLogId + 1;
      r := Success(p);
    }

    /** `GET /api/products/<id>`. */
    function GetProduct(id: int): (r: Result<Product, Error>)
      reads this
      requires Valid()
      ensures r.Failure? <==> id !in products
      ensures r.Success? ==> r.value.id == id
      ensures r.Success? ==> r.value == products[id]
      ensures r.Failure? ==> r.error == NotFound(id)
    {
      Lookup(products, id)
    }
  }
}
