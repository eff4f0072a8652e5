# Inventory backend: a verified model

This project models the data logic of the inventory-management backend, a Flask
application whose handlers live in `backend/app.py`. The database is an
in-memory product table plus an append-only restock log. Request bodies are
payload records whose absent JSON keys are `None`. Each handler is modelled as an
operation on these values:

- **store** (module `Store`): the class `ProductStore` holds the product table
  (`map<int, Product>`), the restock log (`seq<RestockLog>`) and the two
  primary-key counters. Creating, updating, deleting and restocking a product
  are methods with `modifies this` and frame conditions. Missing keys and
  unknown ids come back as a `Result` error.
- **queries** (module `Queries`):
  - the product listing, in ascending primary-key order;
  - the low-stock filter, with threshold 10;
  - the dashboard summary;
  - the five most recent restock events.
  These are functions, with lemmas relating them to the table and to the store
  operations.
- **analytics** (module `Analytics`):
  - the flat 30-day inventory trend;
  - the synthetic per-product ramp `max(stock - (29 - i), 0)`;
  - the per-product metrics.
  The handlers' loops are methods, proved against the series function and its
  lemmas.

`Records` holds the entities, the payloads and the constants (threshold 10,
86400 seconds per day, 30 trend days, 5 recent events). `Wrappers` holds
`Option` and `Result`.

The current time `now` (seconds) and the current day `today` (a day number) are
parameters. Prices and costs are integers in minor units.

## Model

| member | source | states |
|---|---|---|
| Records.Lookup | backend/app.py:47 | fetching by primary key succeeds exactly when the id is stored, returns that row, and otherwise fails with NotFound(id) |
| Store.NewProduct | backend/app.py:31-38 | a missing `name` fails first, then a missing `sku`; success iff both are present; the row gets the new id, the given name and sku, stock 0 when `stock_level` is absent, and category, price and cost copied from the payload (null when absent) |
| Store.UpdatedProduct | backend/app.py:60-65 | a missing `name` or `sku` fails (name first); on success the id is kept, name/sku/category/price/cost take the payload values (null when absent), and the stock level keeps its old value when `stock_level` is absent |
| Store.UpdateIdempotent | backend/app.py:57-69 | applying the same update body twice gives the same row as applying it once |
| Store.PayloadRoundTrip | backend/app.py:31-38 | a row's own serialization sent back as an update leaves it unchanged, and creating from it under the same id rebuilds it |
| Store.UpdateAfterCreate | backend/app.py:31-38 | updating a freshly created row with the body it was created from changes nothing |
| Store.PutRow | backend/app.py:83-84 | writing a row back under its own stored id keeps every row under its own id and below the id counter |
| Store.AppendLog | backend/app.py:85 | appending an event with the next log id keeps the log's ids increasing and below the counter |
| Store.LogIdsDistinct | backend/app.py:85 | a log whose ids increase holds no event twice |
| Store.ProductStore.constructor | backend/app.py:12 | the store starts with no products and no events, and is valid |
| Store.ProductStore.AddProduct | backend/app.py:28-43 | on an error nothing changes; on success exactly one row is added, under a fresh id not used before, holding the payload's row; the restock log is untouched |
| Store.ProductStore.UpdateProduct | backend/app.py:47-69 | an unknown id fails with NotFound before the body is read; a bad body changes nothing; on success only that row changes, to the updated row |
| Store.ProductStore.DeleteProduct | backend/app.py:47-74 | an unknown id fails with NotFound; otherwise exactly that id is removed, the table shrinks by one, and the restock log is untouched (nothing cascades) |
| Store.ProductStore.Restock | backend/app.py:77-89 | NotFound for an unknown id, then MissingField("quantity"), both with nothing changed; on success the stock level becomes old plus quantity (either sign), no other row changes, and exactly one event (next id, product id, quantity, `now`) is appended |
| Store.ProductStore.GetProduct | backend/app.py:47-49 | succeeds with the stored row itself (carrying the requested id) when the id is stored, and otherwise fails with NotFound(id) |
| Queries.MinKey | backend/app.py:25 | the chosen key is in the set and no key is smaller |
| Queries.SortedKeys | backend/app.py:25 | the listing order holds every key exactly once, strictly ascending |
| Queries.AllProducts | backend/app.py:24-26 | the listing has one entry per row, contains exactly the stored rows, and lists them in ascending id order |
| Queries.FilterLow | backend/app.py:100 | keeps exactly the rows whose stock is below 10, never more rows than it was given |
| Queries.LowStock | backend/app.py:97-101 | the low-stock list contains exactly the stored products whose stock level is below 10 |
| Queries.LowCount | backend/app.py:100 | the low-stock list holds each low product once: its length is the number of ids with stock below 10 |
| Queries.CountSince | backend/app.py:112 | the count of recent events never exceeds the number of events |
| Queries.Summary | backend/app.py:103-119 | `totalProducts` is the number of stored products, `totalValue` is the sum of price times stock, `lowStockProducts` is the length of the low-stock list, and `restocksPending` lies between 0 and the log's length |
| Queries.SummaryCounts | backend/app.py:109-112 | `lowStockProducts` is the number of products with stock below 10; `restocksPending` is the number of events with a timestamp at or after `now` minus one day |
| Queries.PendingCount | backend/app.py:111-112 | counting the events at or after a time gives the size of the set of such events, when no event repeats |
| Queries.ReplaceRow | backend/app.py:107 | replacing one row changes the total stock and the total value by exactly that row's difference |
| Queries.RestockTotalStock | backend/app.py:83 | a restock of `q` raises the total stock by exactly `q` |
| Queries.RestockTotalValue | backend/app.py:83 | a restock of `q` raises the total value by exactly the price times `q` (price 0 when missing) |
| Queries.AddRowTotals | backend/app.py:39-40 | a product created under an id above every stored one adds its stock to the total stock and its price times stock to the total value |
| Queries.AddRows | backend/app.py:39-40 | a product created under an id above every stored one is listed last, after the unchanged earlier listing |
| Queries.DeleteRowTotals | backend/app.py:72 | deleting a product removes exactly its stock from the total stock and its price times stock from the total value |
| Queries.InsertByTime | backend/app.py:93 | inserting an event adds exactly that one event and keeps a newest-first order |
| Queries.ByRecency | backend/app.py:93 | ordering by timestamp descending is a permutation of the log with non-increasing timestamps |
| Queries.RecentLogs | backend/app.py:91-94 | the result has min(5, log length) events drawn from the log, newest first, and every event returned is at least as new as every event left out |
| Analytics.Series | backend/app.py:160-163 | the synthetic series has exactly 30 points |
| Analytics.SeriesShape | backend/app.py:160-163 | every point is at least 0, each day rises by 0 or 1, the series never decreases, the first point is max(stock - 29, 0) and the last is max(stock, 0) |
| Analytics.SeriesOfFive | backend/app.py:146 | a stock level of 5 gives 25 zeros followed by 1, 2, 3, 4, 5 |
| Analytics.Min | backend/app.py:165 | the minimum is an element of the list and no element is smaller |
| Analytics.Max | backend/app.py:166 | the maximum is an element of the list and no element is larger |
| Analytics.MinMaxOfNonDecreasing | backend/app.py:165-166 | on a non-decreasing list the minimum is the first point and the maximum the last |
| Analytics.MetricOf | backend/app.py:160-180 | id, name and sku are copied; minStock is the first point, maxStock and currentStock the last one, which is max(stock, 0); changeAmount is max minus min and lies in 0..29 (exactly 29 once stock reaches 29); changePercent is "N/A" iff the first point is 0 iff stock is at most 29, and otherwise is change over first |
| Analytics.EmptyStockHasNoPercent | backend/app.py:169 | a product with no stock reports "N/A" |
| Analytics.InventoryTrend | backend/app.py:122-135 | 30 points on consecutive days ending today, each showing the sum of all stock levels |
| Analytics.FlatTrend | backend/app.py:128-133 | the loop builds 30 points, point i dated 29 - i days before today and showing the given total |
| Analytics.ProductTrend | backend/app.py:137-152 | an unknown id fails with NotFound; otherwise 30 points, point i dated 29 - i days before today with the ramp value max(stock - (29 - i), 0) |
| Analytics.Metrics | backend/app.py:154-182 | one metric per product, in listing order, each the metric of that product |
| Analytics.MetricsOf | backend/app.py:159-180 | the loop yields, for each product in turn, exactly its metric |

## Left out

- Flask routing and method dispatch, CORS, `jsonify`/`to_dict`, and the server bootstrap are not modelled. HTTP statuses are reduced to a `Result`: `MissingField` stands for 400 and `NotFound` for 404.
- The ORM session (`add`, `delete`, `commit`, `get_or_404`) is replaced by the map itself. Each operation is atomic and runs alone; concurrent requests are not modelled.
- The wall clock (`datetime.utcnow()`) and `date.isoformat()` are not modelled. `now` (seconds) and `today` (a day number) are parameters, and dates are integers.
- Floating point is not modelled. Prices and costs are integers in minor units. The numeric `changePercent = round(change / first * 100, 1)` is kept only as the pair `Ratio(change, first)`, as opposed to `"N/A"`.
- JSON `null` values, non-integer JSON values and an absent or non-object request body (which the framework or the `data[...]` lookup rejects) are not modelled. A payload key is either present with a well-typed value or absent.
- `stock_level` is a non-nullable integer, so the source's `stock_level or 0` is the identity. `price or 0` is modelled as "0 when missing".
- The order of `Product.query.all()` is taken to be ascending primary key.
- Among restock events with equal timestamps, the database order is unspecified. The model places the later-logged event first.
- Ids are handed out by counters that never go back. SQLite's reuse of the largest deleted rowid is not modelled.
- The text of the error messages (`Missing field 'name'`) is reduced to the field's name.
- The frontend's data-fetching hooks contain no logic and are not part of this model.
- Store.ProductStore.Restock: its `ensures` does not restate the change of the total stock and of the total value. Those are stated once, over the table, by `Queries.RestockTotalStock` and `Queries.RestockTotalValue`.
- Store.ProductStore.AddProduct and Store.ProductStore.DeleteProduct: the effect on the dashboard totals is stated by `Queries.AddRowTotals` and `Queries.DeleteRowTotals`, not in the methods' `ensures`.
