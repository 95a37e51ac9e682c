/**
 * The persistent state of the order system: the stock column of the `products`
 * table, the rows of the `orders` table and the AUTOINCREMENT counter that
 * hands out order ids, together with the error kinds the engine reports.
 */
module Records {

  /** The closed set of values the `status` column of an order holds. */
  datatype Status = Pending | Shipped | Cancelled | Delivered

  /** A calendar day as its proleptic Gregorian ordinal: day 1 is 0001-01-01. */
  type Day = int

  /** One row of the `orders` table, without its id (the id is the map key). */
  datatype Order = Order(
    customerId: int,
    productId: int,
    status: Status,
    orderDate: Day,
    deliveryDate: Day)

  /**
   * The whole store. `stock` maps a product id to its stock count; `orders`
   * maps an order id to its row; `nextId` is the id AUTOINCREMENT assigns to
   * the next inserted order. AUTOINCREMENT always assigns an id above every
   * existing one, so `nextId` matches it only in a store satisfying
   * `IdsBelowCounter`, which `Valid` includes.
   */
  datatype Store = Store(stock: map<int, int>, orders: map<int, Order>, nextId: int)

  /** Smallest value an SQLite INTEGER holds (a signed 64-bit integer). */
  const MinInteger := -0x8000_0000_0000_0000
  /** Largest value an SQLite INTEGER holds, also the largest rowid. */
  const MaxInteger := 0x7FFF_FFFF_FFFF_FFFF

  /** An integer the database driver can bind as a statement parameter; any other raises an overflow. */
  predicate Bindable(n: int) {
    MinInteger <= n <= MaxInteger
  }

  /** An exception raised inside a call, rather than a refusal by its checks. */
  datatype Fault =
    | IdOutOfRange      // an id parameter does not fit a signed 64-bit INTEGER
    | MalformedOffset   // the configured delivery offset is not an integer literal
    | DateOutOfRange    // the delivery date falls outside the representable calendar
    | RowIdExhausted    // AUTOINCREMENT has no id left to hand out

  /**
   * Errors of a placement. The source reports a missing product and a stock
   * shortfall with one message; a fault is caught and the transaction rolled back.
   */
  datatype PlaceError = ProductUnavailable | SystemError(fault: Fault)

  /**
   * Errors of a cancellation. A fault raised while cancelling is not caught:
   * it escapes the call before anything was written.
   */
  datatype CancelError = OrderNotFound | PolicyRestriction(status: Status) | Uncaught(fault: Fault)

  /** An order that has left the warehouse; company policy forbids cancelling it. */
  predicate Dispatched(st: Status) {
    st == Shipped || st == Delivered
  }

  predicate StocksNonNegative(s: Store) {
    forall p :: p in s.stock ==> s.stock[p] >= 0
  }

  /** Every existing order id lies below the AUTOINCREMENT counter, so the counter value is fresh. */
  predicate IdsBelowCounter(s: Store) {
    forall id :: id in s.orders ==> id < s.nextId
  }

  /** The invariant the engine maintains: no negative stock and fresh ids for new orders. */
  predicate Valid(s: Store) {
    && 1 <= s.nextId
    && StocksNonNegative(s)
    && IdsBelowCounter(s)
  }
}
