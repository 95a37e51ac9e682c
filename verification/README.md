# SecureOrder order engine in Dafny

This project models the order transaction engine of the SecureOrder server (`app.py`). The engine has two tools.

- **`place_order`** checks a product's stock. When the product exists and holds enough units, it decrements the stock and inserts one `pending` order. The delivery date is the current date plus a configured offset, three days by default. The decrement and the insertion happen in one transaction, and any exception rolls the transaction back.
- **`cancel_order`** enforces the company policy. A missing order is an error. An order that is `shipped` or `delivered` is refused. Any other order is set to `cancelled`, and its stock is not restored.

The database is abstracted as an immutable `Records.Store`. It holds:

- a map from product id to stock;
- a map from order id to the order row;
- the AUTOINCREMENT counter that assigns order ids.

Each tool is a pure function from a store to a typed result and the store after the call. The error kinds replace the source's message strings:

- a product that is missing or short of stock (one message in the source);
- an order that is not found;
- a policy restriction;
- system errors that cause a rollback;
- an exception that escapes a cancellation uncaught.

Ids are SQLite INTEGERs, which are signed 64-bit. The driver raises an overflow when it binds a product, customer or order id outside that range. The model reports this as the `IdOutOfRange` fault, at the statement that binds the id.

Files and modules:

- `outcomes.dfy` (`Outcomes`): the `Result` and `Option` types.
- `records.dfy` (`Records`): the order status enum, the order row, the store, the error kinds, and the store invariant `Valid`. `Valid` means no stock is negative, the AUTOINCREMENT counter is at least 1, and every order id lies below that counter.
- `calendar.dfy` (`Calendar`): the delivery offset setting and the delivery-date computation. Dates are day ordinals, with 0001-01-01 as day 1 and 9999-12-31 as day 3652059, the range a datetime can hold.
- `inventory.dfy` (`Inventory`): the stock lookup and the guarded stock decrement.
- `engine.dfy` (`OrderEngine`): the two tools, the request field constraints as preconditions, and their invariant and idempotence lemmas.
- `trace.dfy` (`Trace`): runs any history of calls serially, one atomic step per call. It proves that:
  - stock is conserved against the units sold;
  - no product is oversold;
  - each successful placement adds exactly one order;
  - an existing order only ever stays as it is or becomes cancelled, and shipped or delivered orders are never touched.
- `seed.dfy` (`Seed`): the seeded database, including proofs that the seeded shipped order 101 can never be cancelled.

In three places the model follows the code where one might expect otherwise:

- **Re-cancelling.** Cancelling an already cancelled order succeeds again (app.py:141). The model proves this is idempotent on the store, instead of treating `cancelled` as terminal and refusing the second cancel.
- **Negative offsets.** The delivery offset may be zero or negative: the code accepts any integer the setting parses to (app.py:111).
- **Quantity checks.** A quantity outside `0 < quantity < 50` is rejected only by the request model (app.py:22), so it is a precondition of `PlaceOrder`. The engine itself does not re-check it.

## Model

| member | source | states |
|---|---|---|
| Inventory.TakeStock | app.py:105-109 | The decrement happens exactly when the product exists and its stock is at least the quantity. The product then has exactly `quantity` fewer units, and every other product keeps its stock. |
| Calendar.DeliveryDate | app.py:111-112 | The delivery date lies exactly the configured offset (default 3) after the order date. It fails with a date-range fault exactly when that day falls outside 0001-01-01..9999-12-31, and with a malformed-offset fault when the offset is not an integer. |
| OrderEngine.PlaceOrder | app.py:95-126 | Every failure leaves the whole store unchanged (rollback). A product id outside the 64-bit range fails with `IdOutOfRange`. Otherwise, the product-unavailable error occurs exactly when the product is missing or short of stock. An unparsable offset or an out-of-range delivery date fails with that fault. A customer id outside the 64-bit range then fails with `IdOutOfRange`, and an exhausted counter with `RowIdExhausted`. On success, only the chosen product's stock drops, by exactly `quantity`. Exactly one new `pending` order is added, with the given customer and product, the order date, and a delivery date the offset later. In a store whose order ids lie below the counter, the new id is fresh and existing orders are untouched. |
| OrderEngine.CancelOrder | app.py:129-147 | An order id outside the 64-bit range raises uncaught (`Uncaught(IdOutOfRange)`) with the store unchanged. Otherwise, not-found occurs exactly when the order id is absent. A shipped or delivered order gets a policy restriction naming its status, with the store unchanged. Any other order, including one already cancelled, becomes `cancelled` with every other field unchanged. Stock, the id counter and all other orders are never changed. |
| OrderEngine.PlaceOrderPreservesValid | app.py:105-119 | A placement, successful or not, keeps all stocks non-negative and keeps the AUTOINCREMENT counter above every order id. |
| OrderEngine.CancelOrderPreservesValid | app.py:141-145 | A cancellation, successful or not, keeps the store invariant. |
| OrderEngine.CancelOrderIdempotent | app.py:141-147 | After a successful cancellation, cancelling the same order again succeeds and leaves the store exactly as the first call left it. |
| Trace.Step | app.py:95-147 | One call is one atomic step. It keeps the set of products, never removes an order, and never lowers the counter. It lowers each product's stock by exactly the units its reply reports as sold. In a store whose order ids lie below the counter, it changes an existing order only into a cancelled copy of an undispatched order. |
| Trace.Run | app.py:95-147 | A serial history yields one reply per call. It keeps the product set, never removes an order, and never lowers the id counter. |
| Trace.RunPreservesValid | app.py:105-119 | Every history of admissible calls keeps stock non-negative and order ids fresh. |
| Trace.RunConservesStock | app.py:109 | For every product, the final stock plus the units sold by successful placements equals the initial stock. |
| Trace.NoOverselling | app.py:105-109 | Starting from a valid store, no history sells more units of a product than the product held at the start. |
| Trace.RunOrderCount | app.py:114-119 | From a valid store, the number of orders grows by exactly the number of successful placements. |
| Trace.RunRespectsLifecycle | app.py:141-144 | From a valid store, over any history, each pre-existing order is either unchanged or the same order with status `cancelled`, and the latter only if it was neither shipped nor delivered. |
| Trace.LastUnitSoldOnce | app.py:105-109 | Two one-unit placements run one after the other against a product with one unit left, when the first call can succeed (product and first customer ids in the 64-bit range, first delivery date in range, counter not exhausted): the first succeeds, the second gets the product-unavailable error, and the stock ends at 0. |
| Seed.SeedIsValid | app.py:58-69 | The seeded database satisfies the store invariant. |
| Seed.SeedOrderRefusesCancel | app.py:65-69 | Cancelling the seeded shipped order 101 yields a policy restriction for status `shipped` and leaves the store unchanged. |
| Seed.SeedOversizedCustomerRolledBack | app.py:114-124 | On the seeded database, an order of one unit of product 1 for customer 2^63 fails with `IdOutOfRange` at the insert and leaves the store unchanged, stock included. |
| Seed.SeedOrderNeverCancelled | app.py:65-69 | No history of calls from the seeded database cancels or alters order 101. |

## Left out

- **Startup and transport.** Connections, SQL text, schema creation and `INSERT OR IGNORE` (app.py:29-73) are left out. So are the MCP server, `load_dotenv`, `HOST`/`PORT`/`SQLITE_DB_PATH` parsing and logging (app.py:6-16, 149-151). These are I/O and configuration plumbing, and the store maps replace the tables.
- **`search_products`** (app.py:78-92) is left out. It is a formatted `LIKE` query whose matching rules belong to SQLite and which changes no state.
- **Prices, names, categories and result strings** are left out. Prices are floating point, and the names, categories and result strings are presentation. Errors are typed values instead.
- **Validation machinery.** The request validation itself is left out. Its constraints appear as the preconditions `ValidQuantity` and `ValidReason`.
- **The delivery offset setting** is taken as already interpreted by integer parsing: unset, parsed to a value, or rejected. The text grammar that `int()` accepts is not modelled.
- **The clock** is a day-ordinal parameter. The source reads it twice, once for the delivery date and once for the order date (app.py:112, 117). The model uses one reading for both, and it ignores time of day, which does not affect the date arithmetic.
- **Concurrency** is not modelled. Each call is one atomic serial step, so `Trace.NoOverselling` and `Trace.LastUnitSoldOnce` hold only for serial calls. In the source, the stock query (app.py:102) runs before the driver opens its implicit transaction at the UPDATE (app.py:109). Two connections can therefore both pass the stock check, and the second UPDATE can take the stock below zero.
- **Other storage failures** are not modelled. Failures other than AUTOINCREMENT exhaustion, such as a full disk, a locked database or a NULL stock value, could also raise inside the placement transaction. In `cancel_order` they could escape without rollback, because it has no exception handler.
- **Connection leaks.** `cancel_order` does not close its connection on its error returns (app.py:137-142). This resource leak has no counterpart in the model.
